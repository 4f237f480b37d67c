/** Genesis storage: values are encoded, shifted into place within their slot, and merged. */
module Storage {
  import opened Wrappers
  import opened ByteStrings

  // ---------- words ----------

  /** Bitwise or of two n-bit numbers. */
  function OrBits(a: nat, b: nat, n: nat): nat {
    if n == 0 then 0
    else 2 * OrBits(a / 2, b / 2, n - 1) + (if a % 2 == 1 || b % 2 == 1 then 1 else 0)
  }

  function Or(a: Byte, b: Byte): Byte {
    OrBitsBound(a, b, 8);
    OrBits(a, b, 8)
  }

  lemma {:induction false} OrBitsBound(a: nat, b: nat, n: nat)
    ensures OrBits(a, b, n) < Pow2(n)
  {
    if n > 0 {
      OrBitsBound(a / 2, b / 2, n - 1);
    } else {
      assert Pow2(0) == 1;
    }
    assert n == 8 ==> Pow2(8) == 256;
  }

  function Pow2(n: nat): nat { if n == 0 then 1 else 2 * Pow2(n - 1) }

  function OrWords(a: Word, b: Word): Word {
    seq(32, (i: int) requires 0 <= i < 32 => Or(a[i], b[i]))
  }

  /** The last k bytes of n, big-endian; with k = 32 this is `BigToHash`, which crops from the left. */
  function FixedBE(n: nat, k: nat): (b: Bytes)
    ensures |b| == k
  {
    if k == 0 then [] else FixedBE(n / 256, k - 1) + [n % 256]
  }

  function Zeros(k: nat): (b: Bytes)
    ensures |b| == k
  {
    seq(k, (i: int) => 0)
  }

  /** Shifts the number left by whole bytes. */
  function HandleOffset(w: Word, offset: nat): Word {
    if offset == 0 then w else FixedBE(FromBE(w) * Pow256(offset), 32)
  }

  // ---------- layouts and values ----------

  datatype Entry = Entry(name: string, offset: nat, slot: nat, typeName: string)

  /** The types that the encoder tells apart. */
  datatype Kind = BoolType | AddressType | Bytes32Type | UintType | StringType | DynamicArray | Unsupported

  datatype LayoutType = LayoutType(kind: Kind, name: string, numberOfBytes: nat)

  datatype Layout = Layout(storage: seq<Entry>, types: map<string, LayoutType>)

  datatype Value =
    | VBool(flag: bool)
    | VAddress(address: Bytes)
    | VHash(hash: Word)
    | VUint(n: nat)
    | VString(text: Bytes)

  predicate WellTyped(v: Value) { v.VAddress? ==> |v.address| == 20 }

  datatype Encoded = Encoded(key: nat, value: Word)

  function EncodeString(text: Bytes): Option<Word> {
    if |text| >= 32 then None
    else Some(text + Zeros(31 - |text|) + [2 * |text|])
  }

  /** The value at offset 0. */
  function EncodeAtZero(v: Value, kind: Kind): Option<Word>
    requires WellTyped(v)
  {
    match (kind, v)
    case (BoolType, VBool(flag)) => Some(FixedBE(if flag then 1 else 0, 32))
    case (AddressType, VAddress(address)) => Some(Zeros(12) + address)
    case (Bytes32Type, VHash(hash)) => Some(hash)
    case (UintType, VUint(n)) => Some(FixedBE(n, 32))
    case (UintType, VBool(flag)) => Some(FixedBE(if flag then 1 else 0, 32))
    case (StringType, VString(text)) => EncodeString(text)
    case _ => None
  }

  /** `EncodeStorage`. Full-word types only go at offset 0; a dynamic array yields nothing at all. */
  function EncodeStorage(entry: Entry, v: Value, t: LayoutType): Option<seq<Encoded>>
    requires WellTyped(v)
  {
    if t.numberOfBytes > 32 then None
    else if t.kind.DynamicArray? then Some([])
    else if (t.kind.Bytes32Type? || t.kind.StringType?) && entry.offset != 0 then None
    else match EncodeAtZero(v, t.kind)
      case None => None
      case Some(w) => Some([Encoded(entry.slot, HandleOffset(w, entry.offset))])
  }

  /** The last entry with the given label. */
  function FindEntry(storage: seq<Entry>, name: string): Option<Entry> {
    if storage == [] then None
    else if storage[|storage| - 1].name == name then Some(storage[|storage| - 1])
    else FindEntry(storage[..|storage| - 1], name)
  }

  function TypeOf(layout: Layout, entry: Entry): Option<LayoutType> {
    if entry.typeName in layout.types && layout.types[entry.typeName].name != "" then Some(layout.types[entry.typeName])
    else None
  }

  type Values = map<string, Value>

  predicate AllTyped(values: Values) { forall l | l in values :: WellTyped(values[l]) }

  /** `order` lists labels of well-typed values. */
  predicate Labels(values: Values, order: seq<string>) {
    AllTyped(values) && forall l | l in order :: l in values
  }

  function EncodeLabel(layout: Layout, values: Values, name: string): Option<seq<Encoded>>
    requires AllTyped(values) && name in values
  {
    match FindEntry(layout.storage, name)
    case None => None
    case Some(entry) =>
      if entry.name == "" then None
      else match TypeOf(layout, entry)
        case None => None
        case Some(t) => EncodeStorage(entry, values[name], t)
  }

  function Join(a: Option<seq<Encoded>>, b: Option<seq<Encoded>>): Option<seq<Encoded>> {
    match (a, b)
    case (Some(front), Some(last)) => Some(front + last)
    case _ => None
  }

  /** All encoded values, for one order in which the map of values may be iterated. */
  function Collect(layout: Layout, values: Values, order: seq<string>): Option<seq<Encoded>>
    requires Labels(values, order)
  {
    if order == [] then Some([])
    else Join(Collect(layout, values, order[..|order| - 1]), EncodeLabel(layout, values, order[|order| - 1]))
  }

  // ---------- merging ----------

  type Slots = map<nat, Word>

  function Add(m: Slots, e: Encoded): Slots {
    m[e.key := if e.key in m then OrWords(m[e.key], e.value) else e.value]
  }

  function Merged(storage: seq<Encoded>): Slots {
    if storage == [] then map[] else Add(Merged(storage[..|storage| - 1]), storage[|storage| - 1])
  }

  /** The result list as the map it stands for. */
  function AsSlots(results: seq<Encoded>): Slots {
    if results == [] then map[]
    else AsSlots(results[..|results| - 1])[results[|results| - 1].key := results[|results| - 1].value]
  }

  function Keys(results: seq<Encoded>): (keys: seq<nat>)
    ensures |keys| == |results|
  {
    seq(|results|, (i: int) requires 0 <= i < |results| => results[i].key)
  }

  predicate DistinctKeys(results: seq<Encoded>) {
    forall i, j | 0 <= i < j < |results| :: results[i].key != results[j].key
  }

  /** The keys in the order in which they first occur. */
  function FirstKeys(storage: seq<Encoded>): seq<nat> {
    if storage == [] then []
    else
      var keys := FirstKeys(storage[..|storage| - 1]);
      if storage[|storage| - 1].key in keys then keys else keys + [storage[|storage| - 1].key]
  }

  predicate Distinct(keys: seq<nat>) {
    forall i, j | 0 <= i < j < |keys| :: keys[i] != keys[j]
  }

  lemma {:induction false} FirstKeysMerged(storage: seq<Encoded>)
    ensures Distinct(FirstKeys(storage))
    ensures forall k :: k in FirstKeys(storage) <==> k in Merged(storage)
  {
    if storage != [] {
      FirstKeysMerged(storage[..|storage| - 1]);
    }
  }

  /** One result per key, with everything stored under that key, in order of first occurrence. */
  method MergeStorage(storage: seq<Encoded>) returns (results: seq<Encoded>)
    ensures DistinctKeys(results)
    ensures AsSlots(results) == Merged(storage)
    ensures Keys(results) == FirstKeys(storage)
  {
    var encodedKV: Slots := map[];
    var encodedKeys: seq<nat> := [];
    for n := 0 to |storage|
      invariant encodedKV == Merged(storage[..n])
      invariant encodedKeys == FirstKeys(storage[..n])
    {
      assert storage[..n + 1][..n] == storage[..n];
      FirstKeysMerged(storage[..n]);
      var e := storage[n];
      if e.key in encodedKV {
        encodedKV := encodedKV[e.key := OrWords(encodedKV[e.key], e.value)];
      } else {
        encodedKV := encodedKV[e.key := e.value];
        encodedKeys := encodedKeys + [e.key];
      }
    }
    assert storage[..|storage|] == storage;
    FirstKeysMerged(storage);
    results := ListSlots(encodedKeys, encodedKV);
    assert forall i | 0 <= i < |results| :: results[i].key == Keys(results)[i];
  }

  /** The second loop of `MergeStorage`. */
  method ListSlots(keys: seq<nat>, slots: Slots) returns (results: seq<Encoded>)
    requires Distinct(keys) && forall k :: k in keys <==> k in slots
    ensures AsSlots(results) == slots
    ensures Keys(results) == keys
  {
    results := [];
    for n := 0 to |keys|
      invariant |results| == n && forall i | 0 <= i < n :: results[i].key == keys[i]
      invariant AsSlots(results).Keys == set i | 0 <= i < n :: keys[i]
      invariant forall k | k in AsSlots(results) :: k in slots && AsSlots(results)[k] == slots[k]
    {
      assert keys[n] in slots;
      var next := results + [Encoded(keys[n], slots[keys[n]])];
      assert next[..|next| - 1] == results;
      results := next;
    }
    assert AsSlots(results).Keys == slots.Keys;
  }

  /** The loop over labels; `order` is the order in which the map happens to be iterated. */
  method ComputeStorageSlots(layout: Layout, values: Values, order: seq<string>) returns (r: Option<seq<Encoded>>)
    requires Labels(values, order)
    ensures r.Some? <==> Collect(layout, values, order).Some?
    ensures r.Some? ==> DistinctKeys(r.value) && AsSlots(r.value) == Merged(Collect(layout, values, order).value)
    ensures r.Some? ==> Keys(r.value) == FirstKeys(Collect(layout, values, order).value)
  {
    var encodedStorage: seq<Encoded> := [];
    for n := 0 to |order|
      invariant Collect(layout, values, order[..n]) == Some(encodedStorage)
    {
      assert order[..n + 1][..n] == order[..n];
      var name := order[n];
      var target := FindLast(layout.storage, name);
      var storage: Option<seq<Encoded>> := None;
      if target.Some? && target.value.name != "" {
        var storageType := TypeOf(layout, target.value);
        if storageType.Some? {
          storage := EncodeStorage(target.value, values[name], storageType.value);
        }
      }
      if storage.None? {
        CollectFails(layout, values, order, n + 1);
        return None;
      }
      encodedStorage := encodedStorage + storage.value;
    }
    assert order[..|order|] == order;
    var results := MergeStorage(encodedStorage);
    r := Some(results);
  }

  /** Entry `i` has the name, and no later one does. */
  predicate LastNamed(storage: seq<Entry>, i: nat, name: string)
    requires i < |storage|
  {
    storage[i].name == name && forall j | i < j < |storage| :: storage[j].name != name
  }

  /** The inner loop: later entries overwrite earlier ones. */
  method FindLast(storage: seq<Entry>, name: string) returns (target: Option<Entry>)
    ensures target == FindEntry(storage, name)
    ensures target.None? <==> forall i | 0 <= i < |storage| :: storage[i].name != name
    ensures target.Some? ==> exists i | 0 <= i < |storage| :: target.value == storage[i] && LastNamed(storage, i, name)
  {
    target := None;
    for n := 0 to |storage|
      invariant target == FindEntry(storage[..n], name)
      invariant target.None? <==> forall i | 0 <= i < n :: storage[i].name != name
      invariant target.Some? ==> exists i | 0 <= i < n :: target.value == storage[i] && LastNamed(storage[..n], i, name)
    {
      assert storage[..n + 1][..n] == storage[..n];
      if name == storage[n].name {
        target := Some(storage[n]);
      }
    }
    assert storage[..|storage|] == storage;
  }

  lemma {:induction false} CollectFails(layout: Layout, values: Values, order: seq<string>, n: nat)
    requires Labels(values, order) && n <= |order|
    requires Collect(layout, values, order[..n]).None?
    ensures Collect(layout, values, order).None?
    decreases |order|
  {
    if n < |order| {
      assert order[..|order| - 1][..n] == order[..n];
      CollectFails(layout, values, order[..|order| - 1], n);
    } else {
      assert order[..n] == order;
    }
  }
}
