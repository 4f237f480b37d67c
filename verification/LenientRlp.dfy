/** The lenient reader, `RLPReader`, which follows pointers into memory without bounds checks,
    and `Encoding.decodeStorageRootFromEncodedAccount` on top of it. */
module LenientRlp {
  import opened Wrappers
  import opened ByteStrings
  import opened Rlp
  import opened RlpReader

  const STRING_SHORT_START := 0x80
  const STRING_LONG_START := 0xb8
  const LIST_SHORT_START := 0xc0
  const LIST_LONG_START := 0xf8

  /** All of memory: what lies past the end of an input is arbitrary. */
  type Memory = int -> Byte

  datatype Item = Item(len: nat, ptr: nat)

  function Slice(mem: Memory, ptr: nat, n: nat): (r: Bytes)
    ensures |r| == n
  {
    seq(n, i requires 0 <= i < n => mem(ptr + i))
  }

  function ItemLength(mem: Memory, ptr: nat): (n: nat)
    ensures n > 0
  {
    var byte0 := mem(ptr);
    if byte0 < STRING_SHORT_START then 1
    else if byte0 < STRING_LONG_START then byte0 - STRING_SHORT_START + 1
    else if byte0 < LIST_SHORT_START then
      var byteLen := byte0 - 0xb7;
      FromBE(Slice(mem, ptr + 1, byteLen)) + byteLen + 1
    else if byte0 < LIST_LONG_START then byte0 - LIST_SHORT_START + 1
    else
      var byteLen := byte0 - 0xf7;
      FromBE(Slice(mem, ptr + 1, byteLen)) + byteLen + 1
  }

  function PayloadOffset(mem: Memory, ptr: nat): nat {
    var byte0 := mem(ptr);
    if byte0 < STRING_SHORT_START then 0
    else if byte0 < STRING_LONG_START || (byte0 >= LIST_SHORT_START && byte0 < LIST_LONG_START) then 1
    else if byte0 < LIST_SHORT_START then byte0 - (STRING_LONG_START - 1) + 1
    else byte0 - (LIST_LONG_START - 1) + 1
  }

  predicate IsList(mem: Memory, item: Item) {
    item.len > 0 && mem(item.ptr) >= LIST_SHORT_START
  }

  /** The items met from `ptr` until `end` is reached or passed. */
  function ItemsUntil(mem: Memory, ptr: nat, end: nat): seq<Item>
    decreases end - ptr
  {
    if ptr >= end then []
    else [Item(ItemLength(mem, ptr), ptr)] + ItemsUntil(mem, ptr + ItemLength(mem, ptr), end)
  }

  method NumItems(mem: Memory, item: Item) returns (count: nat)
    ensures count == if item.len == 0 then 0
                     else |ItemsUntil(mem, item.ptr + PayloadOffset(mem, item.ptr), item.ptr + item.len)|
  {
    if item.len == 0 { return 0; }
    count := 0;
    var currPtr := item.ptr + PayloadOffset(mem, item.ptr);
    var endPtr := item.ptr + item.len;
    ghost var total := |ItemsUntil(mem, currPtr, endPtr)|;
    while currPtr < endPtr
      invariant count + |ItemsUntil(mem, currPtr, endPtr)| == total
    {
      currPtr := currPtr + ItemLength(mem, currPtr);
      count := count + 1;
    }
  }

  function ListOf(mem: Memory, item: Item): Option<seq<Item>> {
    if !IsList(mem, item) then None
    else Some(ItemsUntil(mem, item.ptr + PayloadOffset(mem, item.ptr), item.ptr + item.len))
  }

  /** The items found so far, followed by those from `ptr` on, are all items. */
  ghost predicate Gathered(mem: Memory, result: seq<Item>, ptr: nat, end: nat, all: seq<Item>) {
    result + ItemsUntil(mem, ptr, end) == all
  }

  lemma {:induction false} GatherOne(mem: Memory, result: seq<Item>, ptr: nat, end: nat, all: seq<Item>)
    requires Gathered(mem, result, ptr, end, all) && |result| < |all|
    ensures var n := ItemLength(mem, ptr); Gathered(mem, result + [Item(n, ptr)], ptr + n, end, all)
  {
    hide ItemLength;
    var n := ItemLength(mem, ptr);
    var rest := ItemsUntil(mem, ptr + n, end);
    assert ItemsUntil(mem, ptr, end) == [Item(n, ptr)] + rest;
    assert result + [Item(n, ptr)] + rest == result + ([Item(n, ptr)] + rest);
  }

  lemma {:induction false} GatherEnds(mem: Memory, result: seq<Item>, ptr: nat, end: nat, all: seq<Item>)
    requires Gathered(mem, result, ptr, end, all)
    ensures |result| == |all| ==> result == all
    ensures result == [] ==> all == ItemsUntil(mem, ptr, end)
  {
    hide ItemsUntil;
  }

  method ToList(mem: Memory, item: Item) returns (r: Option<seq<Item>>)
    ensures r == ListOf(mem, item)
  {
    if !IsList(mem, item) { return None; }
    var items := NumItems(mem, item);
    var result: seq<Item> := [];
    var memPtr: nat := item.ptr + PayloadOffset(mem, item.ptr);
    ghost var end := item.ptr + item.len;
    ghost var all := ItemsUntil(mem, memPtr, end);
    assert Gathered(mem, [], memPtr, end, all);
    hide ItemsUntil, ItemLength, PayloadOffset, Gathered;
    var i := 0;
    while i < items
      invariant 0 <= i <= items == |all|
      invariant Gathered(mem, result, memPtr, end, all)
      invariant |result| == i
    {
      GatherOne(mem, result, memPtr, end, all);
      var dataLen := ItemLength(mem, memPtr);
      result := result + [Item(dataLen, memPtr)];
      memPtr := memPtr + dataLen;
      i := i + 1;
    }
    GatherEnds(mem, result, memPtr, end, all);
    r := Some(result);
  }

  /** `toUintStrict`, kept as the 32 bytes it loads. */
  function ToUintStrict(mem: Memory, item: Item): Option<Word> {
    if item.len == 33 then Some(Slice(mem, item.ptr + 1, 32)) else None
  }

  /** `decodeStorageRootFromEncodedAccount` on the `len` bytes at the start of `mem`. */
  function StorageRoot(mem: Memory, len: nat): Option<Word> {
    match ListOf(mem, Item(len, 0))
    case None => None
    case Some(account) => if |account| < 3 then None else ToUintStrict(mem, account[2])
  }

  // ---------- agreement with the strict reader ----------

  ghost predicate Holds(mem: Memory, ptr: nat, b: Bytes) {
    Slice(mem, ptr, |b|) == b
  }

  lemma {:induction false} HoldsSub(mem: Memory, ptr: nat, b: Bytes, lo: nat, hi: nat)
    requires Holds(mem, ptr, b) && lo <= hi <= |b|
    ensures Holds(mem, ptr + lo, b[lo..hi])
  {
    forall i | 0 <= i < hi - lo ensures mem(ptr + lo + i) == b[lo..hi][i] {
      assert Slice(mem, ptr, |b|)[lo + i] == mem(ptr + (lo + i));
    }
  }

  lemma {:induction false} HeaderAgrees(mem: Memory, ptr: nat, b: Bytes)
    requires Holds(mem, ptr, b) && DecodeLength(b).Some?
    ensures ItemLength(mem, ptr) == DecodeLength(b).value.End()
    ensures PayloadOffset(mem, ptr) == DecodeLength(b).value.offset
    ensures mem(ptr) == b[0]
  {
    assert Slice(mem, ptr, |b|)[0] == mem(ptr);
    var prefix: int := b[0];
    if 0xb8 <= prefix < 0xc0 {
      HoldsSub(mem, ptr, b, 1, prefix - 0xb6);
    } else if 0xf8 <= prefix {
      HoldsSub(mem, ptr, b, 1, prefix - 0xf6);
    }
  }

  /** The same items, as locations in memory. */
  ghost predicate SameItems(mem: Memory, items: seq<Item>, strict: seq<Bytes>) {
    |items| == |strict| && forall i | 0 <= i < |items| ::
      items[i].len == |strict[i]| && Holds(mem, items[i].ptr, strict[i])
  }

  lemma {:induction false} SameItemsCons(mem: Memory, item: Item, items: seq<Item>, r: Bytes, strict: seq<Bytes>)
    requires SameItems(mem, items, strict) && item.len == |r| && Holds(mem, item.ptr, r)
    ensures SameItems(mem, [item] + items, [r] + strict)
  {
    hide Holds;
  }

  lemma {:induction false} ItemsAgree(mem: Memory, ptr: nat, p: Bytes)
    requires Holds(mem, ptr, p) && SplitItems(p).Some?
    ensures SameItems(mem, ItemsUntil(mem, ptr, ptr + |p|), SplitItems(p).value)
    decreases |p|
  {
    hide Holds, SameItems, ItemLength, DecodeLength;
    if p == [] {
      SameItemsNil(mem);
    } else {
      var n := DecodeLength(p).value.End();
      HeaderAgrees(mem, ptr, p);
      HoldsSub(mem, ptr, p, 0, n);
      HoldsSub(mem, ptr, p, n, |p|);
      assert p[n..] == p[n..|p|] && p[..n] == p[0..n];
      ItemsAgree(mem, ptr + n, p[n..]);
      SameItemsCons(mem, Item(n, ptr), ItemsUntil(mem, ptr + n, ptr + |p|), p[..n], SplitItems(p[n..]).value);
    }
  }

  lemma {:induction false} SameItemsNil(mem: Memory)
    ensures SameItems(mem, [], [])
  {
  }

  /** Whatever surrounds the input in memory, the lenient reader finds the items that the strict
      reader finds. */
  lemma {:induction false} ReadersAgree(mem: Memory, ptr: nat, b: Bytes)
    requires Holds(mem, ptr, b) && ListItems(b).Some?
    ensures ListOf(mem, Item(|b|, ptr)).Some?
    ensures SameItems(mem, ListOf(mem, Item(|b|, ptr)).value, ListItems(b).value)
  {
    hide Holds, SameItems, ItemLength, PayloadOffset, ItemsUntil, SplitItems;
    var h := DecodeLength(b).value;
    HeaderAgrees(mem, ptr, b);
    HoldsSub(mem, ptr, b, h.offset, |b|);
    assert b[h.offset..] == b[h.offset..|b|];
    ItemsAgree(mem, ptr + h.offset, b[h.offset..]);
  }

  /** RLP of an account: nonce, balance, storage root and code hash (Yellow Paper, section 4.1). */
  function EncodeAccount(nonce: Bytes, balance: Bytes, storageRoot: Word, codeHash: Word): Bytes {
    EncodeList(Concat([EncodeString(nonce), EncodeString(balance), EncodeString(storageRoot), EncodeString(codeHash)]))
  }

  /** The storage root read from an encoded account is its third field. */
  lemma {:induction false} StorageRootOfAccount(mem: Memory, nonce: Bytes, balance: Bytes, storageRoot: Word,
                                                codeHash: Word)
    requires |nonce| <= 32 && |balance| <= 32
    requires Holds(mem, 0, EncodeAccount(nonce, balance, storageRoot, codeHash))
    ensures StorageRoot(mem, |EncodeAccount(nonce, balance, storageRoot, codeHash)|) == Some(storageRoot)
  {
    var items := [EncodeString(nonce), EncodeString(balance), EncodeString(storageRoot), EncodeString(codeHash)];
    var b := EncodeAccount(nonce, balance, storageRoot, codeHash);
    AccountParses(nonce, balance, storageRoot, codeHash);
    ReadersAgree(mem, 0, b);
    var item := ListOf(mem, Item(|b|, 0)).value[2];
    assert items[2] == [0xa0] + storageRoot;
    HoldsSub(mem, item.ptr, items[2], 1, 33);
    assert items[2][1..33] == storageRoot;
  }

  /** Of any input that the strict reader takes for a list, the last 32 bytes of the third item are read, if
      there is one of 33 bytes; an input that it takes for a string, or an empty one, is refused. */
  lemma {:induction false} StorageRootExact(mem: Memory, b: Bytes)
    requires Holds(mem, 0, b)
    ensures ListItems(b).Some? ==>
              var items := ListItems(b).value;
              StorageRoot(mem, |b|) == if |items| >= 3 && |items[2]| == 33 then Some(items[2][1..]) else None
    ensures ReadBytes(b).Some? || b == [] ==> StorageRoot(mem, |b|).None?
  {
    if ListItems(b).Some? {
      ReadersAgree(mem, 0, b);
      hide ListItems, ItemsUntil, ListOf;
      var items, found := ListItems(b).value, ListOf(mem, Item(|b|, 0)).value;
      if |items| >= 3 && |items[2]| == 33 {
        HoldsSub(mem, found[2].ptr, items[2], 1, 33);
        assert items[2][1..33] == items[2][1..];
      }
    }
    if ReadBytes(b).Some? {
      HeaderAgrees(mem, 0, b);
    }
  }

  lemma {:induction false} ConcatFour(items: seq<Bytes>)
    requires |items| == 4
    ensures Concat(items) == items[0] + items[1] + items[2] + items[3]
  {
    var t1 := items[1..];
    var t2 := t1[1..];
    var t3 := t2[1..];
    assert Concat(t3) == t3[0] + Concat(t3[1..]) == items[3];
    assert Concat(t2) == items[2] + items[3];
    assert Concat(t1) == items[1] + Concat(t2);
  }

  lemma {:induction false} AccountParses(nonce: Bytes, balance: Bytes, storageRoot: Word, codeHash: Word)
    requires |nonce| <= 32 && |balance| <= 32
    ensures ListItems(EncodeAccount(nonce, balance, storageRoot, codeHash))
            == Some([EncodeString(nonce), EncodeString(balance), EncodeString(storageRoot), EncodeString(codeHash)])
  {
    var items := [EncodeString(nonce), EncodeString(balance), EncodeString(storageRoot), EncodeString(codeHash)];
    StringFramed(nonce);
    StringFramed(balance);
    StringFramed(storageRoot);
    StringFramed(codeHash);
    ConcatFour(items);
    ReadListExact(EncodeAccount(nonce, balance, storageRoot, codeHash), items);
  }
}
