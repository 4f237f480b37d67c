/** Packed storage reads back what was put in, whatever order the values were merged in. */
module StorageProofs {
  import opened Wrappers
  import opened ByteStrings
  import opened Storage

  // ---------- shifting ----------

  lemma {:induction false} ShiftByZeros(b: Bytes, k: nat)
    ensures FromBE(b + Zeros(k)) == FromBE(b) * Pow256(k)
  {
    if k == 0 {
      assert b + Zeros(k) == b;
    } else {
      var c := b + Zeros(k);
      assert c[..|c| - 1] == b + Zeros(k - 1);
      ShiftByZeros(b, k - 1);
      assert FromBE(b) * Pow256(k) == FromBE(b) * Pow256(k - 1) * 256;
    }
  }

  lemma {:induction false} FixedIsSuffix(b: Bytes, k: nat)
    requires k <= |b|
    ensures FixedBE(FromBE(b), k) == b[|b| - k..]
  {
    if k > 0 {
      FixedIsSuffix(b[..|b| - 1], k - 1);
      assert b[|b| - k..] == b[..|b| - 1][|b| - k..] + [b[|b| - 1]];
    }
  }

  /** Shifting the number moves the bytes to the left and fills with zeros; what is shifted out on
      the left is lost. */
  lemma {:induction false} OffsetMovesBytes(w: Word, offset: nat, i: nat)
    requires i < 32
    ensures HandleOffset(w, offset)[i] == if i + offset < 32 then w[i + offset] else 0
  {
    var b := w + Zeros(offset);
    ShiftByZeros(w, offset);
    FixedIsSuffix(b, 32);
    assert offset == 0 ==> b == w;
    assert b[|b| - 32..][i] == b[offset + i];
  }

  lemma {:induction false} FixedReads(n: nat, k: nat)
    requires n < Pow256(k)
    ensures FromBE(FixedBE(n, k)) == n
  {
    if k > 0 {
      FixedReads(n / 256, k - 1);
      var b := FixedBE(n, k);
      assert b[..|b| - 1] == FixedBE(n / 256, k - 1);
    }
  }

  /** A number that fits in its width leaves the bytes above it zero. */
  lemma {:induction false} FixedLeadingZeros(n: nat, k: nat, width: nat, i: nat)
    requires n < Pow256(width) && width <= k && i < k - width
    ensures FixedBE(n, k)[i] == 0
  {
    if n == 0 {
      if k - 1 > i {
        FixedLeadingZeros(0, k - 1, 0, i);
      }
    } else {
      FixedLeadingZeros(n / 256, k - 1, width - 1, i);
    }
  }

  // ---------- or ----------

  lemma {:induction false} OrBitsLaws(a: nat, b: nat, c: nat, n: nat)
    ensures OrBits(a, b, n) == OrBits(b, a, n)
    ensures OrBits(OrBits(a, b, n), c, n) == OrBits(OrBits(a, c, n), b, n)
  {
    if n > 0 {
      OrBitsLaws(a / 2, b / 2, c / 2, n - 1);
    }
  }

  lemma {:induction false} OrBitsSame(a: nat, n: nat)
    requires a < Pow2(n)
    ensures OrBits(a, 0, n) == a && OrBits(0, a, n) == a && OrBits(a, a, n) == a
  {
    if n > 0 {
      OrBitsSame(a / 2, n - 1);
    }
  }

  lemma {:induction false} OrSame(a: Byte)
    ensures Or(a, 0) == a && Or(0, a) == a && Or(a, a) == a
  {
    assert Pow2(8) == 256;
    OrBitsSame(a, 8);
  }

  lemma {:induction false} OrExchange(a: Word, b: Word, c: Word)
    ensures OrWords(OrWords(a, b), c) == OrWords(OrWords(a, c), b)
    ensures OrWords(a, b) == OrWords(b, a)
  {
    forall i | 0 <= i < 32
      ensures OrWords(OrWords(a, b), c)[i] == OrWords(OrWords(a, c), b)[i] && OrWords(a, b)[i] == OrWords(b, a)[i]
    {
      OrBitsLaws(a[i], b[i], c[i], 8);
    }
  }

  // ---------- order of merging ----------

  lemma {:induction false} AddExchange(m: Slots, x: Encoded, y: Encoded)
    ensures Add(Add(m, x), y) == Add(Add(m, y), x)
  {
    if x.key == y.key {
      if x.key in m {
        OrExchange(m[x.key], x.value, y.value);
      }
      OrExchange(x.value, y.value, x.value);
    }
  }

  lemma {:induction false} MergedMoved(p: seq<Encoded>, x: Encoded, q: seq<Encoded>)
    ensures Merged(p + [x] + q) == Add(Merged(p + q), x)
    decreases |q|
  {
    hide Add;
    var all := p + [x] + q;
    if q == [] {
      assert all[..|all| - 1] == p && p + q == p;
    } else {
      var front, last := q[..|q| - 1], q[|q| - 1];
      assert all[..|all| - 1] == p + [x] + front && all[|all| - 1] == last;
      assert (p + q)[..|p + q| - 1] == p + front && (p + q)[|p + q| - 1] == last;
      MergedMoved(p, x, front);
      AddExchange(Merged(p + front), x, last);
    }
  }

  lemma {:induction false} TakenOut<T>(b: seq<T>, j: nat)
    requires j < |b|
    ensures b == b[..j] + [b[j]] + b[j + 1..]
    ensures multiset(b) == multiset(b[..j] + b[j + 1..]) + multiset{b[j]}
  {
    assert b == b[..j] + [b[j]] + b[j + 1..];
  }

  lemma {:induction false} Cancel<T>(m: multiset<T>, n: multiset<T>, x: T)
    requires m + multiset{x} == n + multiset{x}
    ensures m == n
  {
    assert m == m + multiset{x} - multiset{x} && n == n + multiset{x} - multiset{x};
  }

  lemma {:induction false} LastIn<T>(a: seq<T>, b: seq<T>) returns (j: nat)
    requires a != [] && multiset(a) == multiset(b)
    ensures j < |b| && b == b[..j] + [a[|a| - 1]] + b[j + 1..]
    ensures multiset(a[..|a| - 1]) == multiset(b[..j] + b[j + 1..])
  {
    var front, x := a[..|a| - 1], a[|a| - 1];
    assert a == front + [x];
    assert x in multiset(b);
    j :| 0 <= j < |b| && b[j] == x;
    TakenOut(b, j);
    Cancel(multiset(front), multiset(b[..j] + b[j + 1..]), x);
  }

  /** Merging gives the same slots for every order of the encoded values. */
  lemma {:induction false} MergedPermutation(a: seq<Encoded>, b: seq<Encoded>)
    requires multiset(a) == multiset(b)
    ensures Merged(a) == Merged(b)
    decreases |a|
  {
    hide Add;
    if a == [] {
      assert |multiset(b)| == 0;
    } else {
      var j := LastIn(a, b);
      MergedPermutation(a[..|a| - 1], b[..j] + b[j + 1..]);
      MergedMoved(b[..j], a[|a| - 1], b[j + 1..]);
    }
  }

  /** `all` holds what `rest` and `one` hold, in some order, and fails if either does. */
  ghost predicate Extends(all: Option<seq<Encoded>>, rest: Option<seq<Encoded>>, one: Option<seq<Encoded>>) {
    && (all.Some? <==> rest.Some? && one.Some?)
    && (all.Some? ==> multiset(all.value) == multiset(rest.value) + multiset(one.value))
  }

  lemma {:induction false} ExtendsJoin(all: Option<seq<Encoded>>, rest: Option<seq<Encoded>>,
                                       one: Option<seq<Encoded>>, last: Option<seq<Encoded>>)
    requires Extends(all, rest, one)
    ensures Extends(Join(all, last), Join(rest, last), one)
  {
  }

  lemma {:induction false} LabelsInsert(values: Values, p: seq<string>, x: string, q: seq<string>)
    ensures Labels(values, p + [x] + q) <==> Labels(values, p + q) && x in values
    ensures Labels(values, p + q) ==> AllTyped(values)
  {
    var all := p + [x] + q;
    assert all[|p|] == x;
    assert forall l :: l in all <==> l in p + q || l == x;
  }

  lemma {:induction false} CollectMoved(layout: Layout, values: Values, p: seq<string>, x: string, q: seq<string>)
    requires Labels(values, p + q) && x in values && Labels(values, p + [x] + q)
    ensures Extends(Collect(layout, values, p + [x] + q), Collect(layout, values, p + q),
                    EncodeLabel(layout, values, x))
    decreases |q|
  {
    hide EncodeLabel;
    var all := p + [x] + q;
    if q == [] {
      assert all[..|all| - 1] == p && p + q == p;
    } else {
      hide Join, Extends;
      var front, last := q[..|q| - 1], q[|q| - 1];
      assert all[..|all| - 1] == p + [x] + front && all[|all| - 1] == last;
      assert (p + q)[..|p + q| - 1] == p + front && (p + q)[|p + q| - 1] == last;
      CollectMoved(layout, values, p, x, front);
      ExtendsJoin(Collect(layout, values, p + [x] + front), Collect(layout, values, p + front),
                  EncodeLabel(layout, values, x), EncodeLabel(layout, values, last));
    }
  }

  ghost predicate SameContents(a: Option<seq<Encoded>>, b: Option<seq<Encoded>>) {
    (a.Some? <==> b.Some?) && (a.Some? ==> multiset(a.value) == multiset(b.value))
  }

  lemma {:induction false} ExtendsSame(a: Option<seq<Encoded>>, b: Option<seq<Encoded>>, a': Option<seq<Encoded>>,
                                       b': Option<seq<Encoded>>, one: Option<seq<Encoded>>)
    requires SameContents(a, b) && Extends(a', a, one) && Extends(b', b, one)
    ensures SameContents(a', b')
  {
  }

  lemma {:induction false} CollectPermutation(layout: Layout, values: Values, a: seq<string>, b: seq<string>)
    requires Labels(values, a) && Labels(values, b) && multiset(a) == multiset(b)
    ensures SameContents(Collect(layout, values, a), Collect(layout, values, b))
    decreases |a|
  {
    hide EncodeLabel, Collect, Labels, SameContents, Extends;
    if a == [] {
      assert |multiset(b)| == 0;
      SameSelf(Collect(layout, values, a));
    } else {
      var j := LastIn(a, b);
      var front, x := a[..|a| - 1], a[|a| - 1];
      var rest := b[..j] + b[j + 1..];
      assert a == front + [x] + [] && front + [] == front;
      LabelsInsert(values, front, x, []);
      LabelsInsert(values, b[..j], x, b[j + 1..]);
      CollectPermutation(layout, values, front, rest);
      CollectMoved(layout, values, front, x, []);
      CollectMoved(layout, values, b[..j], x, b[j + 1..]);
      ExtendsSame(Collect(layout, values, front), Collect(layout, values, rest), Collect(layout, values, a),
                  Collect(layout, values, b), EncodeLabel(layout, values, x));
    }
  }

  lemma {:induction false} SameSelf(a: Option<seq<Encoded>>)
    ensures SameContents(a, a)
  {
  }

  /** Neither success nor the resulting slots depend on the order in which the map of values is
      iterated. */
  lemma {:induction false} OrderIrrelevant(layout: Layout, values: Values, a: seq<string>, b: seq<string>)
    requires Labels(values, a) && Labels(values, b) && multiset(a) == multiset(b)
    ensures var ca, cb := Collect(layout, values, a), Collect(layout, values, b);
            && (ca.Some? <==> cb.Some?)
            && (ca.Some? ==> Merged(ca.value) == Merged(cb.value))
  {
    CollectPermutation(layout, values, a, b);
    if Collect(layout, values, a).Some? {
      MergedPermutation(Collect(layout, values, a).value, Collect(layout, values, b).value);
    }
  }

  /** The order of the results does depend on it: two flags in slots 0 and 1, iterated either way. */
  lemma {:induction false} ResultOrderVaries()
    ensures var flag := LayoutType(BoolType, "bool", 1);
            var layout := Layout([Entry("a", 0, 0, "t_bool"), Entry("b", 0, 1, "t_bool")], map["t_bool" := flag]);
            var values: Values := map["a" := VBool(true), "b" := VBool(true)];
            && Labels(values, ["a", "b"]) && Labels(values, ["b", "a"])
            && var ab, ba := Collect(layout, values, ["a", "b"]), Collect(layout, values, ["b", "a"]);
               && ab.Some? && ba.Some? && Merged(ab.value) == Merged(ba.value)
               && FirstKeys(ab.value) == [0, 1] && FirstKeys(ba.value) == [1, 0]
  {
    hide Collect, Merged, FirstKeys, FixedBE, OrBits;
    var flag := LayoutType(BoolType, "bool", 1);
    var a, b := Entry("a", 0, 0, "t_bool"), Entry("b", 0, 1, "t_bool");
    var layout := Layout([a, b], map["t_bool" := flag]);
    var values: Values := map["a" := VBool(true), "b" := VBool(true)];
    assert layout.storage[..1] == [a];
    assert FindEntry([a], "a") == Some(a) && FindEntry(layout.storage, "a") == Some(a);
    assert FindEntry(layout.storage, "b") == Some(b);
    var ea, eb := Encoded(0, FixedBE(1, 32)), Encoded(1, FixedBE(1, 32));
    assert EncodeLabel(layout, values, "a") == Some([ea]) && EncodeLabel(layout, values, "b") == Some([eb]);
    TwoLabels(layout, values, "a", "b", ea, eb);
    TwoLabels(layout, values, "b", "a", eb, ea);
    assert multiset(["a", "b"]) == multiset(["b", "a"]);
    OrderIrrelevant(layout, values, ["a", "b"], ["b", "a"]);
  }

  lemma {:induction false} TwoLabels(layout: Layout, values: Values, l1: string, l2: string, e1: Encoded, e2: Encoded)
    requires Labels(values, [l1, l2]) && l1 in values && l2 in values && e1.key != e2.key
    requires EncodeLabel(layout, values, l1) == Some([e1]) && EncodeLabel(layout, values, l2) == Some([e2])
    ensures Collect(layout, values, [l1, l2]) == Some([e1, e2]) && FirstKeys([e1, e2]) == [e1.key, e2.key]
  {
    hide EncodeLabel, FirstKeys;
    assert [l1, l2][..1] == [l1] && [l1][..0] == [];
    assert Labels(values, [l1]) && Labels(values, []);
    assert Collect(layout, values, []) == Some([]);
    assert Join(Some([]), Some([e1])) == Some([e1]) by { JoinNothing(Some([e1])); }
    assert Collect(layout, values, [l1]) == Some([e1]);
    assert Collect(layout, values, [l1, l2]) == Join(Some([e1]), Some([e2]));
    assert [e1] + [e2] == [e1, e2];
    TwoKeys(e1, e2);
  }

  lemma {:induction false} TwoKeys(e1: Encoded, e2: Encoded)
    requires e1.key != e2.key
    ensures FirstKeys([e1, e2]) == [e1.key, e2.key]
  {
    assert [e1, e2][..1] == [e1] && [e1][..0] == [];
    assert FirstKeys([e1]) == [e1.key];
  }

  // ---------- what one byte of a merged slot is ----------

  lemma {:induction false} MergedKeys(s: seq<Encoded>, key: nat)
    ensures key in Merged(s) <==> exists e :: e in s && e.key == key
  {
    if s != [] {
      var front, last := s[..|s| - 1], s[|s| - 1];
      assert s == front + [last];
      MergedKeys(front, key);
    }
  }

  /** If everything stored at a byte is either 0 or v, and v does occur unless it is 0, the merged
      byte is v. */
  lemma {:induction false} MergedByte(s: seq<Encoded>, key: nat, i: nat, v: Byte)
    requires i < 32
    requires forall e | e in s && e.key == key :: e.value[i] == 0 || e.value[i] == v
    requires v == 0 || exists e :: e in s && e.key == key && e.value[i] == v
    ensures key in Merged(s) ==> Merged(s)[key][i] == v
  {
    if s != [] {
      var front, last := s[..|s| - 1], s[|s| - 1];
      assert s == front + [last];
      assert forall e | e in front :: e in s;
      MergedKeys(front, key);
      OrSame(v);
      if v == 0 || exists e :: e in front && e.key == key && e.value[i] == v {
        MergedByte(front, key, i, v);
      } else {
        MergedByte(front, key, i, 0);
      }
    }
  }

  // ---------- fields ----------

  /** Where a label lives. */
  ghost predicate Placed(layout: Layout, name: string, entry: Entry, t: LayoutType) {
    name != "" && FindEntry(layout.storage, name) == Some(entry) && TypeOf(layout, entry) == Some(t)
  }

  /** The value fits the width of its type, and the field fits the slot. */
  predicate Fits(entry: Entry, v: Value, t: LayoutType) {
    && entry.offset + t.numberOfBytes <= 32
    && match t.kind
       case BoolType => t.numberOfBytes >= 1
       case AddressType => t.numberOfBytes >= 20
       case UintType => if v.VUint? then v.n < Pow256(t.numberOfBytes) else t.numberOfBytes >= 1
       case _ => t.numberOfBytes == 32
  }

  /** Position i of a slot, counted from its most significant byte, belongs to the field. */
  predicate Covers(entry: Entry, t: LayoutType, i: nat) {
    32 - entry.offset - t.numberOfBytes <= i < 32 - entry.offset
  }

  ghost predicate AllFit(layout: Layout, values: Values) {
    forall name, entry, t | name in values && Placed(layout, name, entry, t) :: Fits(entry, values[name], t)
  }

  ghost predicate NoOverlap(layout: Layout, values: Values) {
    forall n1, n2, e1, e2, t1, t2, i: nat |
      n1 in values && n2 in values && n1 != n2 && Placed(layout, n1, e1, t1) && Placed(layout, n2, e2, t2)
      && e1.slot == e2.slot && Covers(e1, t1, i) :: !Covers(e2, t2, i)
  }

  lemma {:induction false} FoundLabel(storage: seq<Entry>, name: string)
    ensures var r := FindEntry(storage, name);
            r.Some? ==> r.value.name == name
  {
    if storage != [] {
      FoundLabel(storage[..|storage| - 1], name);
    }
  }

  /** A value that fits has no set byte above its width. */
  lemma {:induction false} ValueFits(entry: Entry, v: Value, t: LayoutType, i: nat)
    requires WellTyped(v) && Fits(entry, v, t) && EncodeAtZero(v, t.kind).Some? && i < 32 - t.numberOfBytes
    ensures EncodeAtZero(v, t.kind).value[i] == 0
  {
    if v.VUint? {
      FixedLeadingZeros(v.n, 32, t.numberOfBytes, i);
    } else if v.VBool? {
      assert Pow256(1) == 256;
      FixedLeadingZeros(if v.flag then 1 else 0, 32, 1, i);
    }
  }

  /** What a label puts in its slot: its value inside its field and zeros outside. */
  lemma {:induction false} FieldBytes(entry: Entry, v: Value, t: LayoutType, i: nat)
    requires WellTyped(v) && Fits(entry, v, t) && i < 32
    requires EncodeStorage(entry, v, t).Some? && !t.kind.DynamicArray?
    ensures EncodeAtZero(v, t.kind).Some?
    ensures var e := EncodeStorage(entry, v, t).value;
            && |e| == 1 && e[0].key == entry.slot
            && e[0].value[i] == if Covers(entry, t, i) then EncodeAtZero(v, t.kind).value[i + entry.offset] else 0
  {
    hide EncodeAtZero;
    var w := EncodeAtZero(v, t.kind).value;
    OffsetMovesBytes(w, entry.offset, i);
    if i + entry.offset < 32 && !Covers(entry, t, i) {
      ValueFits(entry, v, t, i + entry.offset);
    }
  }

  /** Everything collected comes from a label, and every label is collected. */
  lemma {:induction false} CollectOrigin(layout: Layout, values: Values, order: seq<string>, e: Encoded)
    requires Labels(values, order) && Collect(layout, values, order).Some?
    ensures e in Collect(layout, values, order).value <==>
            exists l :: l in order && EncodeLabel(layout, values, l).Some? && e in EncodeLabel(layout, values, l).value
  {
    hide EncodeLabel;
    if order != [] {
      var front, last := order[..|order| - 1], order[|order| - 1];
      assert order == front + [last];
      CollectOrigin(layout, values, front, e);
    }
  }

  lemma {:induction false} CollectComplete(layout: Layout, values: Values, order: seq<string>, l: string)
    requires Labels(values, order) && Collect(layout, values, order).Some? && l in order
    ensures EncodeLabel(layout, values, l).Some?
  {
    hide EncodeLabel;
    var front, last := order[..|order| - 1], order[|order| - 1];
    assert order == front + [last];
    if l != last {
      CollectComplete(layout, values, front, l);
    }
  }

  lemma {:induction false} LabelPlaced(layout: Layout, values: Values, l: string) returns (entry: Entry, t: LayoutType)
    requires AllTyped(values) && l in values && EncodeLabel(layout, values, l).Some?
    ensures Placed(layout, l, entry, t)
    ensures EncodeLabel(layout, values, l) == EncodeStorage(entry, values[l], t)
  {
    hide EncodeStorage, FindEntry;
    FoundLabel(layout.storage, l);
    entry := FindEntry(layout.storage, l).value;
    t := TypeOf(layout, entry).value;
  }

  // ---------- when the order of the results is fixed ----------

  /** The slots that `ComputeStorageSlots` returns, in its order. */
  ghost function ResultKeys(layout: Layout, values: Values, order: seq<string>): Option<seq<nat>> {
    if Labels(values, order) && Collect(layout, values, order).Some?
    then Some(FirstKeys(Collect(layout, values, order).value)) else None
  }

  /** The result order is the same for every order in which the map may be iterated. */
  ghost predicate OrderFixed(layout: Layout, values: Values, order: seq<string>) {
    forall p: seq<string> | multiset(p) == multiset(order) ::
      ResultKeys(layout, values, p) == ResultKeys(layout, values, order)
  }

  /** The label lives in `slot`, and is not a dynamic array, which yields nothing. */
  ghost predicate LivesIn(layout: Layout, l: string, slot: nat) {
    exists entry, t :: Placed(layout, l, entry, t) && !t.kind.DynamicArray? && entry.slot == slot
  }

  /** All labels that yield anything live in one slot. */
  ghost predicate OneSlot(layout: Layout, order: seq<string>) {
    forall l1, l2, s1, s2 | l1 in order && l2 in order && LivesIn(layout, l1, s1) && LivesIn(layout, l2, s2) :: s1 == s2
  }

  lemma {:induction false} FirstKeysHead(s: seq<Encoded>)
    requires s != []
    ensures FirstKeys(s) != [] && FirstKeys(s)[0] == s[0].key
  {
    if |s| > 1 {
      FirstKeysHead(s[..|s| - 1]);
    }
  }

  lemma {:induction false} FirstKeysOne(s: seq<Encoded>, k: nat)
    requires forall e | e in s :: e.key == k
    ensures FirstKeys(s) == if s == [] then [] else [k]
  {
    if s != [] {
      var front := s[..|s| - 1];
      assert forall e | e in front :: e in s;
      assert s[|s| - 1] in s;
      FirstKeysOne(front, k);
    }
  }

  lemma {:induction false} CollectCons(layout: Layout, values: Values, l: string, rest: seq<string>)
    requires Labels(values, rest) && l in values && Labels(values, [l] + rest)
    ensures Collect(layout, values, [l] + rest) == Join(EncodeLabel(layout, values, l), Collect(layout, values, rest))
    decreases |rest|
  {
    hide EncodeLabel;
    var all := [l] + rest;
    if rest == [] {
      assert all == [l] && all[..0] == [];
      JoinNothing(EncodeLabel(layout, values, l));
    } else {
      var front, last := rest[..|rest| - 1], rest[|rest| - 1];
      assert all[..|all| - 1] == [l] + front && all[|all| - 1] == last;
      CollectCons(layout, values, l, front);
      JoinAssociative(EncodeLabel(layout, values, l), Collect(layout, values, front),
                      EncodeLabel(layout, values, last));
    }
  }

  lemma {:induction false} JoinNothing(a: Option<seq<Encoded>>)
    ensures Join(Some([]), a) == a && Join(a, Some([])) == a
  {
    if a.Some? {
      assert [] + a.value == a.value && a.value + [] == a.value;
    }
  }

  lemma {:induction false} JoinAssociative(a: Option<seq<Encoded>>, b: Option<seq<Encoded>>, c: Option<seq<Encoded>>)
    ensures Join(Join(a, b), c) == Join(a, Join(b, c))
  {
    if a.Some? && b.Some? && c.Some? {
      assert a.value + b.value + c.value == a.value + (b.value + c.value);
    }
  }

  /** A label yields one entry, in its own slot, or is a dynamic array. */
  lemma {:induction false} LabelKey(layout: Layout, values: Values, l: string, entry: Entry, t: LayoutType)
    requires AllTyped(values) && l in values && EncodeLabel(layout, values, l).Some? && Placed(layout, l, entry, t)
    ensures var es := EncodeLabel(layout, values, l).value;
            if t.kind.DynamicArray? then es == [] else |es| == 1 && es[0].key == entry.slot
  {
    hide FindEntry, EncodeAtZero, HandleOffset;
    var entry', t' := LabelPlaced(layout, values, l);
  }

  /** Everything collected has the key `k` if all labels live in one slot, and it is collected from. */
  lemma {:induction false} OneSlotOneKey(layout: Layout, values: Values, order: seq<string>, e1: Encoded, e2: Encoded)
    requires Labels(values, order) && Collect(layout, values, order).Some? && OneSlot(layout, order)
    requires e1 in Collect(layout, values, order).value && e2 in Collect(layout, values, order).value
    ensures e1.key == e2.key
  {
    hide EncodeLabel, Collect, Placed;
    CollectOrigin(layout, values, order, e1);
    CollectOrigin(layout, values, order, e2);
    var l1 :| l1 in order && EncodeLabel(layout, values, l1).Some? && e1 in EncodeLabel(layout, values, l1).value;
    var l2 :| l2 in order && EncodeLabel(layout, values, l2).Some? && e2 in EncodeLabel(layout, values, l2).value;
    var entry1, t1 := LabelPlaced(layout, values, l1);
    var entry2, t2 := LabelPlaced(layout, values, l2);
    LabelKey(layout, values, l1, entry1, t1);
    LabelKey(layout, values, l2, entry2, t2);
    assert LivesIn(layout, l1, e1.key) && LivesIn(layout, l2, e2.key);
  }

  lemma {:induction false} PermutedLabels(values: Values, p: seq<string>, order: seq<string>)
    requires Labels(values, order) && multiset(p) == multiset(order)
    ensures Labels(values, p)
  {
    assert forall l :: l in p <==> l in multiset(p);
    assert forall l :: l in order <==> l in multiset(order);
  }

  lemma {:induction false} OneSlotFixes(layout: Layout, values: Values, order: seq<string>, p: seq<string>)
    requires Labels(values, order) && Collect(layout, values, order).Some? && OneSlot(layout, order)
    requires multiset(p) == multiset(order)
    ensures ResultKeys(layout, values, p) == ResultKeys(layout, values, order)
  {
    hide Collect, FirstKeys, OneSlot;
    PermutedLabels(values, p, order);
    CollectPermutation(layout, values, p, order);
    var c, c' := Collect(layout, values, order).value, Collect(layout, values, p).value;
    if c == [] {
      assert multiset(c') == multiset{} && |multiset(c')| == |c'|;
    } else {
      var k := c[0].key;
      forall e | e in c ensures e.key == k {
        OneSlotOneKey(layout, values, order, e, c[0]);
      }
      assert forall e :: e in c' ==> e in multiset(c');
      assert forall e :: e in multiset(c) ==> e in c;
      assert c[0] in multiset(c) && (c' == [] ==> multiset(c') == multiset{});
      FirstKeysOne(c, k);
      FirstKeysOne(c', k);
    }
  }

  /** Iterating `l` first puts its slot first. */
  lemma {:induction false} FirstIterated(layout: Layout, values: Values, order: seq<string>, l: string, slot: nat)
        returns (p: seq<string>)
    requires Labels(values, order) && Collect(layout, values, order).Some? && l in order && LivesIn(layout, l, slot)
    ensures multiset(p) == multiset(order)
    ensures var keys := ResultKeys(layout, values, p); keys.Some? && keys.value != [] && keys.value[0] == slot
  {
    hide EncodeLabel, Placed, Collect;
    var entry, t :| Placed(layout, l, entry, t) && !t.kind.DynamicArray? && entry.slot == slot;
    var j :| 0 <= j < |order| && order[j] == l;
    var rest := order[..j] + order[j + 1..];
    p := [l] + rest;
    TakenOut(order, j);
    assert multiset(p) == multiset([l]) + multiset(rest);
    PermutedLabels(values, p, order);
    LabelsInsert(values, [], l, rest);
    assert [] + [l] + rest == p && [] + rest == rest;
    CollectPermutation(layout, values, p, order);
    CollectCons(layout, values, l, rest);
    LabelKey(layout, values, l, entry, t);
    FirstKeysHead(Collect(layout, values, p).value);
  }

  /** The order of the results is fixed if and only if all labels that yield anything live in one
      slot: else every such slot comes first in some order. */
  lemma {:induction false} OrderFixedExact(layout: Layout, values: Values, order: seq<string>)
    requires Labels(values, order) && Collect(layout, values, order).Some?
    ensures OrderFixed(layout, values, order) <==> OneSlot(layout, order)
  {
    if OneSlot(layout, order) {
      FixedByOneSlot(layout, values, order);
    } else {
      hide ResultKeys, Collect, Labels, LivesIn;
      var l1, l2, s1, s2 :| l1 in order && l2 in order && LivesIn(layout, l1, s1) && LivesIn(layout, l2, s2)
          && s1 != s2;
      var p1 := FirstIterated(layout, values, order, l1, s1);
      var p2 := FirstIterated(layout, values, order, l2, s2);
      assert ResultKeys(layout, values, p1) != ResultKeys(layout, values, p2);
    }
  }

  lemma {:induction false} FixedByOneSlot(layout: Layout, values: Values, order: seq<string>)
    requires Labels(values, order) && Collect(layout, values, order).Some? && OneSlot(layout, order)
    ensures OrderFixed(layout, values, order)
  {
    hide ResultKeys, Collect, Labels, OneSlot;
    forall p: seq<string> | multiset(p) == multiset(order)
      ensures ResultKeys(layout, values, p) == ResultKeys(layout, values, order)
    {
      OneSlotFixes(layout, values, order, p);
    }
  }

  /** The bytes of a field that another label leaves alone. */
  lemma {:induction false} OtherLabelZero(layout: Layout, values: Values, l: string, e: Encoded, i: nat)
    requires AllTyped(values) && AllFit(layout, values) && l in values && i < 32
    requires EncodeLabel(layout, values, l).Some? && e in EncodeLabel(layout, values, l).value
    requires forall entry, t | Placed(layout, l, entry, t) && entry.slot == e.key :: !Covers(entry, t, i)
    ensures e.value[i] == 0
  {
    hide EncodeLabel, FindEntry, EncodeAtZero;
    var entry, t := LabelPlaced(layout, values, l);
    FieldBytes(entry, values[l], t, i);
  }

  /** In the merged slots, each byte of a field is the byte of its value. */
  lemma {:induction false} MergedField(layout: Layout, values: Values, order: seq<string>, l: string, entry: Entry,
                                       t: LayoutType, i: nat)
    requires Labels(values, order) && l in order && Collect(layout, values, order).Some?
    requires AllFit(layout, values) && NoOverlap(layout, values)
    requires Placed(layout, l, entry, t) && !t.kind.DynamicArray? && i < 32 && Covers(entry, t, i)
    ensures EncodeAtZero(values[l], t.kind).Some?
    ensures var slots := Merged(Collect(layout, values, order).value);
            entry.slot in slots && slots[entry.slot][i] == EncodeAtZero(values[l], t.kind).value[i + entry.offset]
  {
    hide EncodeLabel, Collect, Merged, FindEntry, EncodeAtZero, EncodeStorage, Fits;
    CollectComplete(layout, values, order, l);
    var entry', t' := LabelPlaced(layout, values, l);
    FieldBytes(entry, values[l], t, i);
    var s := Collect(layout, values, order).value;
    var own := EncodeLabel(layout, values, l).value[0];
    CollectOrigin(layout, values, order, own);
    forall e | e in s && e.key == entry.slot
      ensures e.value[i] == 0 || e == own
    {
      CollectOrigin(layout, values, order, e);
      var from :| from in order && EncodeLabel(layout, values, from).Some?
          && e in EncodeLabel(layout, values, from).value;
      if from != l {
        OtherLabelZero(layout, values, from, e, i);
      }
    }
    MergedKeys(s, entry.slot);
    MergedByte(s, entry.slot, i, own.value[i]);
  }

  /** Bytes of a merged slot that belong to no field are zero. */
  lemma {:induction false} UnusedBytesZero(layout: Layout, values: Values, order: seq<string>, slot: nat, i: nat)
    requires Labels(values, order) && Collect(layout, values, order).Some? && AllFit(layout, values) && i < 32
    requires slot in Merged(Collect(layout, values, order).value)
    requires forall l, entry, t | l in order && Placed(layout, l, entry, t) && entry.slot == slot ::
               !Covers(entry, t, i)
    ensures Merged(Collect(layout, values, order).value)[slot][i] == 0
  {
    hide EncodeLabel, Collect, Merged, FindEntry, Fits, Covers;
    var s := Collect(layout, values, order).value;
    forall e | e in s && e.key == slot
      ensures e.value[i] == 0
    {
      CollectOrigin(layout, values, order, e);
      var from :| from in order && EncodeLabel(layout, values, from).Some?
          && e in EncodeLabel(layout, values, from).value;
      OtherLabelZero(layout, values, from, e, i);
    }
    MergedByte(s, slot, i, 0);
  }

  // ---------- reading back ----------

  /** How a contract reads a field of a slot. */
  function Read(slot: Word, offset: nat, width: nat): Bytes
    requires offset + width <= 32
  {
    slot[32 - offset - width..32 - offset]
  }

  /** What the bytes of a field mean. */
  function DecodeField(kind: Kind, b: Bytes): Option<Value> {
    match kind
    case BoolType => Some(VBool(FromBE(b) != 0))
    case AddressType => if |b| < 20 then None else Some(VAddress(b[|b| - 20..]))
    case Bytes32Type => if |b| != 32 then None else Some(VHash(b))
    case UintType => Some(VUint(FromBE(b)))
    case StringType => if |b| != 32 || b[31] / 2 > 31 then None else Some(VString(b[..b[31] / 2]))
    case _ => None
  }

  /** A flag stored as a number is that number. */
  function Stored(kind: Kind, v: Value): Value {
    if kind.UintType? && v.VBool? then VUint(if v.flag then 1 else 0) else v
  }

  lemma {:induction false} SuffixReads(n: nat, width: nat)
    requires n < Pow256(width) && width <= 32
    ensures FromBE(FixedBE(n, 32)[32 - width..]) == n
  {
    hide FixedBE, FromBE;
    FixedSuffix(n, 32, width);
    FixedReads(n, width);
  }

  lemma {:induction false} FixedSuffix(n: nat, k: nat, width: nat)
    requires width <= k
    ensures FixedBE(n, k)[k - width..] == FixedBE(n, width)
  {
    if width > 0 {
      FixedSuffix(n / 256, k - 1, width - 1);
      assert FixedBE(n, k)[k - width..] == FixedBE(n / 256, k - 1)[k - width..] + [n % 256];
    }
  }

  lemma {:induction false} FlagReads(flag: bool, width: nat)
    requires 1 <= width <= 32
    ensures FromBE(FixedBE(if flag then 1 else 0, 32)[32 - width..]) == if flag then 1 else 0
  {
    PositivePow(width);
    SuffixReads(if flag then 1 else 0, width);
  }

  lemma {:induction false} PositivePow(k: nat)
    ensures Pow256(k) >= 1 && (k >= 1 ==> Pow256(k) >= 256)
  {
    if k > 0 {
      PositivePow(k - 1);
    }
  }

  lemma {:induction false} EncodedDecodes(entry: Entry, v: Value, t: LayoutType)
    requires WellTyped(v) && Fits(entry, v, t) && EncodeAtZero(v, t.kind).Some?
    ensures DecodeField(t.kind, EncodeAtZero(v, t.kind).value[32 - t.numberOfBytes..]) == Some(Stored(t.kind, v))
  {
    hide FixedBE, FromBE;
    match v
    case VUint(n) => SuffixReads(n, t.numberOfBytes);
    case VBool(flag) => FlagReads(flag, t.numberOfBytes);
    case VAddress(address) =>
      var b := (Zeros(12) + address)[32 - t.numberOfBytes..];
      assert b[|b| - 20..] == address;
    case VString(text) => StringsRoundTrip(text);
    case VHash(hash) =>
  }

  /** Strings of up to 31 bytes round-trip, longer ones are refused. */
  lemma {:induction false} StringsRoundTrip(text: Bytes)
    ensures EncodeString(text).Some? <==> |text| <= 31
    ensures EncodeString(text).Some? ==> DecodeField(StringType, EncodeString(text).value) == Some(VString(text))
  {
    if |text| <= 31 {
      var w := EncodeString(text).value;
      assert w[31] == 2 * |text| && w[..|text|] == text;
    }
  }

  /** For every layout without overlap and all values that fit: each field of the merged slots
      reads back as its value, in whatever order the values were encoded. */
  lemma {:induction false} FieldReadsBack(layout: Layout, values: Values, order: seq<string>, l: string, entry: Entry,
                                          t: LayoutType)
    requires Labels(values, order) && l in order && Collect(layout, values, order).Some?
    requires AllFit(layout, values) && NoOverlap(layout, values)
    requires Placed(layout, l, entry, t) && !t.kind.DynamicArray? && t.numberOfBytes > 0
    ensures var slots := Merged(Collect(layout, values, order).value);
            && entry.slot in slots && entry.offset + t.numberOfBytes <= 32
            && DecodeField(t.kind, Read(slots[entry.slot], entry.offset, t.numberOfBytes))
               == Some(Stored(t.kind, values[l]))
  {
    hide Collect, Merged, Placed, NoOverlap, EncodeAtZero, DecodeField;
    assert Fits(entry, values[l], t);
    var slots := Merged(Collect(layout, values, order).value);
    MergedField(layout, values, order, l, entry, t, 32 - entry.offset - t.numberOfBytes);
    var w := EncodeAtZero(values[l], t.kind).value;
    var field := Read(slots[entry.slot], entry.offset, t.numberOfBytes);
    forall j | 0 <= j < t.numberOfBytes
      ensures field[j] == w[32 - t.numberOfBytes + j]
    {
      MergedField(layout, values, order, l, entry, t, 32 - entry.offset - t.numberOfBytes + j);
    }
    assert field == w[32 - t.numberOfBytes..];
    EncodedDecodes(entry, values[l], t);
  }

  // ---------- what can be encoded ----------

  /** The value is of a form that its type takes; full words and short strings only at offset 0. */
  predicate Matches(v: Value, kind: Kind, offset: nat) {
    match kind
    case BoolType => v.VBool?
    case AddressType => v.VAddress?
    case UintType => v.VUint? || v.VBool?
    case Bytes32Type => v.VHash? && offset == 0
    case StringType => v.VString? && |v.text| <= 31 && offset == 0
    case DynamicArray => true
    case Unsupported => false
  }

  /** The last entry with the name has a known type of at most a word, which takes the value. */
  ghost predicate Encodes(layout: Layout, name: string, v: Value) {
    name != "" && exists i | 0 <= i < |layout.storage| ::
      && LastNamed(layout.storage, i, name)
      && var entry := layout.storage[i];
         && entry.typeName in layout.types
         && var t := layout.types[entry.typeName];
            t.name != "" && t.numberOfBytes <= 32 && Matches(v, t.kind, entry.offset)
  }

  lemma {:induction false} FindsLast(storage: seq<Entry>, name: string, i: nat)
    requires i < |storage| && LastNamed(storage, i, name)
    ensures FindEntry(storage, name) == Some(storage[i])
  {
    if i < |storage| - 1 {
      assert LastNamed(storage[..|storage| - 1], i, name);
      FindsLast(storage[..|storage| - 1], name, i);
    }
  }

  lemma {:induction false} FoundIsLast(storage: seq<Entry>, name: string) returns (i: nat)
    requires FindEntry(storage, name).Some?
    ensures i < |storage| && LastNamed(storage, i, name) && FindEntry(storage, name).value == storage[i]
  {
    if storage[|storage| - 1].name == name {
      i := |storage| - 1;
    } else {
      i := FoundIsLast(storage[..|storage| - 1], name);
    }
  }

  lemma {:induction false} StorageAnswer(entry: Entry, v: Value, t: LayoutType)
    requires WellTyped(v)
    ensures EncodeStorage(entry, v, t).Some? <==> t.numberOfBytes <= 32 && Matches(v, t.kind, entry.offset)
  {
    hide FixedBE, HandleOffset;
  }

  lemma {:induction false} LabelAnswer(layout: Layout, values: Values, l: string)
    requires AllTyped(values) && l in values
    ensures EncodeLabel(layout, values, l).Some? <==> Encodes(layout, l, values[l])
  {
    hide FindEntry, EncodeStorage, Matches;
    if FindEntry(layout.storage, l).Some? {
      var i := FoundIsLast(layout.storage, l);
      var entry := layout.storage[i];
      if TypeOf(layout, entry).Some? {
        StorageAnswer(entry, values[l], TypeOf(layout, entry).value);
      }
    }
    forall i | 0 <= i < |layout.storage| && LastNamed(layout.storage, i, l)
      ensures FindEntry(layout.storage, l) == Some(layout.storage[i])
    {
      FindsLast(layout.storage, l, i);
    }
  }

  /** In any order, all labels are encoded if and only if each can be. */
  lemma {:induction false} CollectAnswer(layout: Layout, values: Values, order: seq<string>)
    requires Labels(values, order)
    ensures Collect(layout, values, order).Some? <==> forall l | l in order :: Encodes(layout, l, values[l])
  {
    hide EncodeLabel, Encodes;
    if order != [] {
      var front, last := order[..|order| - 1], order[|order| - 1];
      assert order == front + [last];
      CollectAnswer(layout, values, front);
      LabelAnswer(layout, values, last);
    }
  }
}
