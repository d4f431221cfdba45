/** The FinalWeave v1 thresholds n = 3f+1, q = 2f+1, k = f+1 (pkg/types/quorum.go), and what they
    mean for sets of validators. Validators are the indices 0..n-1. */
module Quorum {

  const MIN_VALIDATOR_COUNT := 4
  const MAX_VALIDATOR_COUNT := 253

  datatype Error = ValidatorCountOutOfRange(got: int) | ValidatorCountNotThreeFPlusOne(got: int) | InvalidParametersPanic

  datatype Result<+T> = Ok(value: T) | Err(error: Error)

  datatype Parameters = Parameters(
    validatorCount: int, maxByzantine: int, quorum: int, recoveryThreshold: int)
  {
    /** False exactly where every accessor of the source panics. */
    predicate Valid() {
      && MIN_VALIDATOR_COUNT <= validatorCount <= MAX_VALIDATOR_COUNT
      && (validatorCount - 1) % 3 == 0
      && maxByzantine == (validatorCount - 1) / 3
      && quorum == 2 * maxByzantine + 1
      && recoveryThreshold == maxByzantine + 1
    }

    /** The accessor whose value is an arithmetic bound; it panics on an invalid tuple. */
    function MinimumQuorumIntersection(): (r: Result<int>)
      ensures r.Ok? <==> Valid()
      ensures r.Ok? ==> r.value == recoveryThreshold
    {
      if Valid() then Ok(2 * quorum - validatorCount) else Err(InvalidParametersPanic)
    }
  }

  function NewQuorumParameters(validatorCount: int): (r: Result<Parameters>)
    ensures r.Ok? ==> r.value.Valid() && r.value.validatorCount == validatorCount
    ensures r.Ok? ==> validatorCount == 3 * r.value.maxByzantine + 1
    ensures r.Ok? <==> exists f :: 1 <= f <= 84 && validatorCount == 3 * f + 1
  {
    if validatorCount < MIN_VALIDATOR_COUNT || validatorCount > MAX_VALIDATOR_COUNT then
      Err(ValidatorCountOutOfRange(validatorCount))
    else if (validatorCount - 1) % 3 != 0 then
      Err(ValidatorCountNotThreeFPlusOne(validatorCount))
    else
      var maxByzantine := (validatorCount - 1) / 3;
      assert validatorCount == 3 * maxByzantine + 1;
      Ok(Parameters(validatorCount, maxByzantine, 2 * maxByzantine + 1, maxByzantine + 1))
  }

  /** The constructor is the only source of tuples whose accessors do not panic. */
  lemma ValidExactlyWhenConstructed(p: Parameters)
    ensures p.Valid() <==> NewQuorumParameters(p.validatorCount) == Ok(p)
  {
    if p.Valid() {
      assert p.validatorCount == 3 * p.maxByzantine + 1;
    }
  }

  // ---------------------------------------------------------------- validator sets

  /** The indices 0..n-1. */
  function Below(n: nat): (r: set<nat>)
    ensures |r| == n
    ensures forall i: nat :: i in r <==> i < n
  {
    if n == 0 then {} else Below(n - 1) + {n - 1}
  }

  function Validators(p: Parameters): set<nat>
    requires p.Valid()
  {
    Below(p.validatorCount)
  }

  lemma SubsetSize<T>(a: set<T>, b: set<T>)
    requires a <= b
    ensures |a| <= |b|
  {
    assert b == a + (b - a);
  }

  /** Two quorums share at least k members, so an honest one whoever the Byzantine f are. */
  lemma QuorumsShareAnHonestMember(p: Parameters, a: set<nat>, b: set<nat>, byzantine: set<nat>)
    returns (honest: nat)
    requires p.Valid()
    requires a <= Validators(p) && b <= Validators(p)
    requires |a| >= p.quorum && |b| >= p.quorum
    requires |byzantine| <= p.maxByzantine
    ensures |a * b| >= p.MinimumQuorumIntersection().value
    ensures honest in a && honest in b && honest !in byzantine
  {
    SubsetSize(a + b, Validators(p));
    assert |a + b| == |a| + |b| - |a * b|;
    assert |a * b| >= p.recoveryThreshold;
    if a * b <= byzantine {
      SubsetSize(a * b, byzantine);
      assert false;
    }
    honest :| honest in a * b && honest !in byzantine;
  }

  /** The bound is attained: some two quorums share exactly k members. */
  lemma IntersectionBoundIsAttained(p: Parameters) returns (a: set<nat>, b: set<nat>)
    requires p.Valid()
    ensures a <= Validators(p) && b <= Validators(p)
    ensures |a| == p.quorum && |b| == p.quorum
    ensures |a * b| == p.MinimumQuorumIntersection().value
  {
    var n, q := p.validatorCount, p.quorum;
    a := Below(q);
    var low := Below(n - q);
    b := Validators(p) - low;
    assert low <= Validators(p);
    assert Validators(p) == b + low;
    assert low <= a && a * b == a - low;
    assert a == (a * b) + low;
  }

  /** Any q signers contain k honest ones: the availability argument for recovering a batch. */
  lemma QuorumContainsHonestRecoverySet(p: Parameters, signers: set<nat>, byzantine: set<nat>)
    requires p.Valid()
    requires |signers| >= p.quorum && |byzantine| <= p.maxByzantine
    ensures |signers - byzantine| >= p.recoveryThreshold
  {
    SubsetSize(signers * byzantine, byzantine);
    assert signers == (signers - byzantine) + (signers * byzantine);
  }

  /** Without f or fewer Byzantine members the argument breaks: f+1 of them can be the whole overlap. */
  lemma OneMoreByzantineBreaksIntersection(p: Parameters)
    returns (a: set<nat>, b: set<nat>, byzantine: set<nat>)
    requires p.Valid()
    ensures a <= Validators(p) && b <= Validators(p) && byzantine <= Validators(p)
    ensures |a| == p.quorum && |b| == p.quorum && |byzantine| == p.maxByzantine + 1
    ensures a * b <= byzantine
  {
    a, b := IntersectionBoundIsAttained(p);
    byzantine := a * b;
  }
}
