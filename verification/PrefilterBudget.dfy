/** The prefilter work budget: cost formulas, the maximal single item, and the charge of a sponsor
    (doc/protocol/04-finality-execution-and-epochs.md, section 3.2). */
module PrefilterBudget {

  const UINT64_MAX: nat := 0xFFFF_FFFF_FFFF_FFFF

  const PREFILTER_HASH_CHUNK_BYTES_V1: nat := 1024
  const PREFILTER_SUFFIX_BASE_UNITS_V1: nat := 1
  const PREFILTER_STRICT_PUBLIC_KEY_UNITS_V1: nat := 16
  const PREFILTER_ED25519_SIGNATURE_UNITS_V1: nat := 64
  const PREFILTER_COMPLEX_ENTRY_UNITS_V1: nat := 4

  const MAX_VALIDATORS: nat := 253
  const MAX_APPROVALS: nat := 1024
  const MAX_FEATURES: nat := 256
  const MAX_GAS_ENTRIES: nat := 65536

  /** One unit for every started chunk of the item. */
  function ScanWorkCost(length: nat): (r: nat)
    ensures (r - 1) * PREFILTER_HASH_CHUNK_BYTES_V1 < length <= r * PREFILTER_HASH_CHUNK_BYTES_V1
  {
    (length + PREFILTER_HASH_CHUNK_BYTES_V1 - 1) / PREFILTER_HASH_CHUNK_BYTES_V1
  }

  /** The occurrences of typed fields that the expensive suffix has to verify. */
  datatype SuffixFields = SuffixFields(publicKeys: nat, signatures: nat, entries: nat)

  function ExpensiveWorkCost(f: SuffixFields): (r: nat)
    ensures r > 0
  {
    PREFILTER_SUFFIX_BASE_UNITS_V1 + f.publicKeys * PREFILTER_STRICT_PUBLIC_KEY_UNITS_V1
    + f.signatures * PREFILTER_ED25519_SIGNATURE_UNITS_V1 + f.entries * PREFILTER_COMPLEX_ENTRY_UNITS_V1
  }

  /** The limits of a protocol configuration that bound one item. */
  datatype Limits = Limits(maxItemBytes: nat, maxSigners: nat, maxSignatures: nat)

  function Max(a: nat, b: nat): nat {
    if a < b then b else a
  }

  function MaxSinglePrefilterVerificationWork(l: Limits): nat {
    var c, b := ScanWorkCost(l.maxItemBytes), PREFILTER_SUFFIX_BASE_UNITS_V1;
    var baseMax := c + b + l.maxSigners * 16 + l.maxSignatures * 64 + l.maxSigners * 4;
    var rotateMax := c + b + (2 * l.maxSigners) * 16 + l.maxSignatures * 64 + (2 * l.maxSigners) * 4;
    var reconfigureMax :=
      c + b + (l.maxSigners + 3 * MAX_VALIDATORS) * 16 + (l.maxSignatures + MAX_APPROVALS) * 64
      + (l.maxSigners + MAX_VALIDATORS + MAX_FEATURES + MAX_GAS_ENTRIES) * 4;
    Max(baseMax, Max(rotateMax, reconfigureMax))
  }

  /** What the envelope and the payload contribute, payload by payload. */
  datatype Payload =
    | Ordinary
    | AccountPolicyRotate(newSigners: nat)
    | LedgerReconfigure(nextValidators: nat, approvals: nat, features: nat, gasEntries: nat)

  function FieldsOf(signers: nat, signatures: nat, p: Payload): SuffixFields {
    match p
    case Ordinary => SuffixFields(signers, signatures, signers)
    case AccountPolicyRotate(newSigners) => SuffixFields(signers + newSigners, signatures, signers + newSigners)
    case LedgerReconfigure(validators, approvals, features, gasEntries) =>
      SuffixFields(signers + 3 * validators, signatures + approvals, signers + validators + features + gasEntries)
  }

  predicate WithinLimits(l: Limits, length: nat, signers: nat, signatures: nat, p: Payload) {
    && length <= l.maxItemBytes && signers <= l.maxSigners && signatures <= l.maxSignatures
    && match p
       case Ordinary => true
       case AccountPolicyRotate(newSigners) => newSigners <= l.maxSigners
       case LedgerReconfigure(validators, approvals, features, gasEntries) =>
         && validators <= MAX_VALIDATORS && approvals <= MAX_APPROVALS && features <= MAX_FEATURES
         && gasEntries <= MAX_GAS_ENTRIES
  }

  lemma ScanCostGrows(a: nat, b: nat)
    requires a <= b
    ensures ScanWorkCost(a) <= ScanWorkCost(b)
  {
  }

  /** The maximum does cover both charges of every item the limits allow. */
  lemma MaximumCoversEveryItem(l: Limits, length: nat, signers: nat, signatures: nat, p: Payload)
    requires WithinLimits(l, length, signers, signatures, p)
    ensures ScanWorkCost(length) + ExpensiveWorkCost(FieldsOf(signers, signatures, p))
         <= MaxSinglePrefilterVerificationWork(l)
  {
    ScanCostGrows(length, l.maxItemBytes);
    hide ScanWorkCost;
  }

  /** The maximum is attained, so a smaller reserve would not do. */
  lemma MaximumIsAttained(l: Limits)
    ensures exists signers: nat, signatures: nat, p: Payload ::
      && WithinLimits(l, l.maxItemBytes, signers, signatures, p)
      && ScanWorkCost(l.maxItemBytes) + ExpensiveWorkCost(FieldsOf(signers, signatures, p))
         == MaxSinglePrefilterVerificationWork(l)
  {
    hide ScanWorkCost;
    var rotate := AccountPolicyRotate(l.maxSigners);
    var reconfigure := LedgerReconfigure(MAX_VALIDATORS, MAX_APPROVALS, MAX_FEATURES, MAX_GAS_ENTRIES);
    assert WithinLimits(l, l.maxItemBytes, l.maxSigners, l.maxSignatures, rotate);
    assert WithinLimits(l, l.maxItemBytes, l.maxSigners, l.maxSignatures, reconfigure);
  }

  // ---------------------------------------------------------------- charging

  datatype Receipt = Receipt(sponsor: nat, reserved: nat, shared: nat)

  /** What is left of every sponsor's own reserve and of the shared pool. */
  datatype Budget = Budget(reserveLeft: seq<nat>, sharedLeft: nat)

  /** The reserve of one sponsor, or the pool all sponsors share. */
  datatype Pool = Own(sponsor: nat) | Common

  predicate IsPool(n: nat, p: Pool) {
    p.Own? ==> p.sponsor < n
  }

  function Left(b: Budget, p: Pool): nat
    requires IsPool(|b.reserveLeft|, p)
  {
    if p.Own? then b.reserveLeft[p.sponsor] else b.sharedLeft
  }

  /** How much of a receipt was taken from the pool. */
  function Part(r: Receipt, p: Pool): nat {
    match p
    case Own(s) => if r.sponsor == s then r.reserved else 0
    case Common => r.shared
  }

  datatype Charge = Charged(budget: Budget, receipt: Receipt) | Failed

  /** TryChargePrefilter: the sponsor's own reserve first, then the shared pool, or nothing at all. It
      fails exactly when the two pools together cannot pay, and a success is for the whole cost. */
  function TryChargePrefilter(b: Budget, sponsor: nat, cost: nat): (c: Charge)
    requires sponsor < |b.reserveLeft|
    ensures c.Failed? <==> cost > Left(b, Own(sponsor)) + Left(b, Common)
    ensures c.Charged? ==>
      && |c.budget.reserveLeft| == |b.reserveLeft|
      && c.receipt.sponsor == sponsor && c.receipt.reserved + c.receipt.shared == cost
      && (c.receipt.shared > 0 ==> Left(c.budget, Own(sponsor)) == 0)
  {
    var own := if cost <= b.reserveLeft[sponsor] then cost else b.reserveLeft[sponsor];
    var rest := cost - own;
    if rest > b.sharedLeft then Failed
    else Charged(Budget(b.reserveLeft[sponsor := b.reserveLeft[sponsor] - own], b.sharedLeft - rest),
                 Receipt(sponsor, own, rest))
  }

  /** Every pool gives up exactly what the receipt says, other sponsors' reserves nothing. */
  lemma ChargeIsOnTheReceipt(b: Budget, sponsor: nat, cost: nat, p: Pool)
    requires sponsor < |b.reserveLeft| && IsPool(|b.reserveLeft|, p)
    requires TryChargePrefilter(b, sponsor, cost).Charged?
    ensures var c := TryChargePrefilter(b, sponsor, cost); Left(c.budget, p) + Part(c.receipt, p) == Left(b, p)
  {
  }
}
