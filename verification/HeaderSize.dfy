/** The header-list size of incoming gRPC metadata (pkg/api/grpcserver/interceptors.go), as defined in
    section 6.5.2 of RFC 9113: name + value + 32 for every field. The source folds saturating 64-bit
    additions over a map whose iteration order is unspecified. */
module HeaderSize {

  const MAX_UINT64: nat := 0xFFFF_FFFF_FFFF_FFFF

  type Text = seq<char>
  type Metadata = map<Text, seq<Text>>

  function Min(a: nat, b: nat): nat { if a < b then a else b }

  /** Go's wrapping addition with the overflow test of the source. */
  function SaturatingAdd(left: nat, right: nat): (r: nat)
    requires left <= MAX_UINT64 && right <= MAX_UINT64
    ensures r == Min(left + right, MAX_UINT64)
  {
    var result := (left + right) % (MAX_UINT64 + 1);
    if result < left then MAX_UINT64 else result
  }

  /** The true, unbounded size of the fields of one name. */
  function FieldsSize(name: Text, values: seq<Text>): nat {
    if values == [] then 0
    else FieldsSize(name, values[..|values| - 1]) + |name| + |values[|values| - 1]| + 32
  }

  ghost function Pick(names: set<Text>): (name: Text)
    requires names != {}
    ensures name in names
  {
    var name :| name in names; name
  }

  /** The true, unbounded size of all fields with one of the given names. */
  ghost function TotalSize(headers: Metadata, names: set<Text>): nat
    requires names <= headers.Keys
    decreases |names|
  {
    if names == {} then 0
    else var name := Pick(names); FieldsSize(name, headers[name]) + TotalSize(headers, names - {name})
  }

  /** Which name is counted first does not matter. */
  lemma {:induction false} TotalSizeTakesAnyOrder(headers: Metadata, names: set<Text>, name: Text)
    requires names <= headers.Keys && name in names
    ensures TotalSize(headers, names) == FieldsSize(name, headers[name]) + TotalSize(headers, names - {name})
    decreases |names|
  {
    var first := Pick(names);
    if first != name {
      TotalSizeTakesAnyOrder(headers, names - {first}, name);
      TotalSizeTakesAnyOrder(headers, names - {name}, first);
      assert names - {first} - {name} == names - {name} - {first};
    }
  }

  /** The inner loop: every repeated value of one name. */
  method AddFields(key: Text, values: seq<Text>, size: nat, ghost total: nat) returns (size': nat)
    requires |key| <= MAX_UINT64 && forall value | value in values :: |value| <= MAX_UINT64
    requires size == Min(total, MAX_UINT64)
    ensures size' == Min(total + FieldsSize(key, values), MAX_UINT64)
  {
    size' := size;
    var i := 0;
    while i < |values|
      invariant 0 <= i <= |values|
      invariant size' == Min(total + FieldsSize(key, values[..i]), MAX_UINT64)
    {
      assert values[i] in values;
      var fieldSize := SaturatingAdd(|key|, |values[i]|);
      fieldSize := SaturatingAdd(fieldSize, 32);
      size' := SaturatingAdd(size', fieldSize);
      assert values[..i + 1][..i] == values[..i];
      i := i + 1;
    }
    assert values[..i] == values;
  }

  /** metadataSize: whatever order the map is walked in, the result is the true size, saturated.
      The source's strings are shorter than 2^63, so their lengths are exact 64-bit values. */
  method MetadataSize(incoming: Metadata, present: bool) returns (size: nat)
    requires forall name | name in incoming ::
      |name| <= MAX_UINT64 && forall value | value in incoming[name] :: |value| <= MAX_UINT64
    ensures size == if present then Min(TotalSize(incoming, incoming.Keys), MAX_UINT64) else 0
  {
    if !present {
      return 0;
    }
    size := 0;
    var todo := incoming.Keys;
    ghost var total: nat := 0;
    while todo != {}
      invariant todo <= incoming.Keys
      invariant total + TotalSize(incoming, todo) == TotalSize(incoming, incoming.Keys)
      invariant size == Min(total, MAX_UINT64)
      decreases |todo|
    {
      var key :| key in todo;
      size := AddFields(key, incoming[key], size, total);
      TotalSizeTakesAnyOrder(incoming, todo, key);
      total := total + FieldsSize(key, incoming[key]);
      todo := todo - {key};
    }
  }

  /** The largest limit the configuration accepts. */
  const MAX_HEADER_LIST_BYTES: nat := 65_536

  /** The interceptor's test: a request is refused exactly when its true size exceeds the limit. */
  method ExceedsLimit(incoming: Metadata, present: bool, limit: nat) returns (refused: bool)
    requires limit <= MAX_HEADER_LIST_BYTES
    requires forall name | name in incoming ::
      |name| <= MAX_UINT64 && forall value | value in incoming[name] :: |value| <= MAX_UINT64
    ensures refused <==> present && TotalSize(incoming, incoming.Keys) > limit
  {
    var size := MetadataSize(incoming, present);
    refused := size > limit;
  }

  /** Repeating a field, even an empty one, always counts: no metadata bypasses the budget. */
  lemma {:induction false} EveryFieldCounts(name: Text, values: seq<Text>)
    ensures FieldsSize(name, values) >= |values| * (|name| + 32)
    ensures forall value | value in values :: FieldsSize(name, values) >= |name| + |value| + 32
  {
    if values != [] {
      EveryFieldCounts(name, values[..|values| - 1]);
    }
  }
}
