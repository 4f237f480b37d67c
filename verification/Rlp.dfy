/** Recursive Length Prefix encoding (Ethereum Yellow Paper, Appendix B). */
module Rlp {
  import opened ByteStrings

  /** Appendix B gives no encoding to payloads of 2^64 bytes or more. */
  const LENGTH_LIMIT := 0x1_0000_0000_0000_0000

  predicate Encodable(payload: Bytes) {
    |payload| < LENGTH_LIMIT
  }

  /** Prefix of a payload of `len` bytes: `short + len`, or `long + n` and the n-byte length.
      Only meaningful below LENGTH_LIMIT, where n is at most 8. */
  function LengthPrefix(len: nat, short: Byte, long: Byte): (r: Bytes)
    requires short <= 0xc0 && long <= 0xf7
    ensures |r| > 0
  {
    if len < 56 then [short + len]
    else
      var be := ToBE(len);
      [long + if |be| <= 8 then |be| else 8] + be
  }

  function EncodeString(s: Bytes): (r: Bytes)
    ensures |r| > 0
  {
    if |s| == 1 && s[0] < 0x80 then s
    else LengthPrefix(|s|, 0x80, 0xb7) + s
  }

  /** Encoding of a list whose items, already encoded, concatenate to `payload`. */
  function EncodeList(payload: Bytes): (r: Bytes)
    ensures |r| > 0
  {
    LengthPrefix(|payload|, 0xc0, 0xf7) + payload
  }

  lemma {:induction false} LimitIsEightBytes(n: nat)
    ensures n < LENGTH_LIMIT <==> n < Pow256(8)
  {
    assert Pow256(2) == 0x1_0000;
    assert Pow256(4) == 0x1_0000 * Pow256(2);
    assert Pow256(6) == 0x1_0000 * Pow256(4);
    assert Pow256(8) == 0x1_0000 * Pow256(6);
  }

  lemma {:induction false} Pow256Monotone(j: nat, k: nat)
    requires j <= k
    ensures Pow256(j) <= Pow256(k)
    decreases k
  {
    if j < k {
      Pow256Monotone(j, k - 1);
    }
  }

  /** What the prefix of a long payload looks like. */
  lemma {:induction false} LongPrefix(len: nat, short: Byte, long: Byte)
    requires 56 <= len < LENGTH_LIMIT
    requires short <= 0xc0 && long <= 0xf7
    ensures var n := |ToBE(len)|;
            && 1 <= n <= 8
            && LengthPrefix(len, short, long) == [long + n] + ToBE(len)
            && ToBE(len)[0] != 0
            && FromBE(ToBE(len)) == len
  {
    LimitIsEightBytes(len);
    ToBELength(len, 8);
    FromToBE(len);
  }
}

/** The strict reader, `RLPReader2`. Items are modelled by their bytes; `None` is a revert. */
module RlpReader {
  import opened Wrappers
  import opened ByteStrings
  import opened Rlp

  const MAX_LIST_LENGTH := 32

  datatype Kind = DataItem | ListItem

  /** Where the payload of an item starts, how long it is, and what it is. */
  datatype Header = Header(offset: nat, length: nat, kind: Kind)
  {
    function End(): nat { offset + length }
  }

  function DecodeLength(b: Bytes): (r: Option<Header>)
    ensures r.Some? ==> 0 < r.value.End() <= |b|
  {
    if |b| == 0 then None
    else
      var prefix := b[0];
      if prefix <= 0x7f then Some(Header(0, 1, DataItem))
      else if prefix <= 0xb7 then
        var strLen := prefix - 0x80;
        if |b| <= strLen then None
        else if strLen == 1 && b[1] < 0x80 then None
        else Some(Header(1, strLen, DataItem))
      else if prefix <= 0xbf then DecodeLong(b, prefix - 0xb7, DataItem)
      else if prefix <= 0xf7 then
        var listLen := prefix - 0xc0;
        if |b| <= listLen then None
        else Some(Header(1, listLen, ListItem))
      else DecodeLong(b, prefix - 0xf7, ListItem)
  }

  function DecodeLong(b: Bytes, lenOfLen: nat, kind: Kind): (r: Option<Header>)
    requires 1 <= lenOfLen
    ensures r.Some? ==> 0 < r.value.End() <= |b|
  {
    if |b| <= lenOfLen then None
    else if b[1] == 0 then None
    else
      var len := FromBE(b[1..1 + lenOfLen]);
      if len <= 55 then None
      else if |b| <= lenOfLen + len then None
      else Some(Header(1 + lenOfLen, len, kind))
  }

  function ReadBytes(b: Bytes): Option<Bytes> {
    match DecodeLength(b)
    case None => None
    case Some(h) =>
      if h.kind.DataItem? && |b| == h.End() then Some(b[h.offset..h.End()]) else None
  }

  /** Splits a payload into items, each as long as its own header says. */
  function SplitItems(p: Bytes): Option<seq<Bytes>> {
    if p == [] then Some([])
    else
      match DecodeLength(p)
      case None => None
      case Some(h) =>
        match SplitItems(p[h.End()..])
        case None => None
        case Some(rest) => Some([p[..h.End()]] + rest)
  }

  /** What `readList` computes; the fixed-size result array makes a 33rd item revert. */
  function ListItems(b: Bytes): Option<seq<Bytes>> {
    match DecodeLength(b)
    case None => None
    case Some(h) =>
      if !h.kind.ListItem? || h.End() != |b| then None
      else
        match SplitItems(b[h.offset..])
        case None => None
        case Some(items) => if |items| <= MAX_LIST_LENGTH then Some(items) else None
  }

  /** The loop of `readList`. */
  method ReadList(b: Bytes) returns (r: Option<seq<Bytes>>)
    ensures r == ListItems(b)
  {
    var header := DecodeLength(b);
    if header.None? { return None; }
    var h := header.value;
    if h.kind != ListItem { return None; }
    if h.End() != |b| { return None; }

    var out: seq<Bytes> := [];
    var offset := h.offset;
    assert forall rest: seq<Bytes> :: out + rest == rest;
    while offset < |b|
      invariant 0 <= offset <= |b|
      invariant |out| <= MAX_LIST_LENGTH
      invariant match SplitItems(b[offset..])
                case None => SplitItems(b[h.offset..]) == None
                case Some(rest) => SplitItems(b[h.offset..]) == Some(out + rest)
    {
      var item := DecodeLength(b[offset..]);
      if item.None? {
        return None;
      }
      if |out| == MAX_LIST_LENGTH {
        TailNonEmpty(b[offset..]);
        return None;
      }
      var end := offset + item.value.End();
      assert b[offset..][item.value.End()..] == b[end..];
      assert b[offset..][..item.value.End()] == b[offset..end];
      ghost var before := out;
      out := out + [b[offset..end]];
      assert forall rest: seq<Bytes> :: before + ([b[offset..end]] + rest) == out + rest;
      offset := end;
    }
    assert b[offset..] == [];
    assert out + [] == out;
    r := Some(out);
  }

  lemma {:induction false} TailNonEmpty(p: Bytes)
    requires p != []
    ensures SplitItems(p).Some? ==> |SplitItems(p).value| > 0
  {
  }

  // ---------- strictness: exactly the canonical encodings are accepted ----------

  /** An item whose header accounts for all of its bytes. */
  predicate Framed(r: Bytes) {
    var h := DecodeLength(r);
    h.Some? && h.value.End() == |r|
  }

  lemma {:induction false} DecodeString(s: Bytes, rest: Bytes)
    requires Encodable(s)
    ensures var e := EncodeString(s);
            DecodeLength(e + rest) == Some(Header(|e| - |s|, |s|, DataItem))
  {
    var e := EncodeString(s);
    var b := e + rest;
    if |s| >= 56 {
      LongPrefix(|s|, 0x80, 0xb7);
      var n := |ToBE(|s|)|;
      assert b[1..1 + n] == ToBE(|s|);
    }
  }

  lemma {:induction false} DecodeList(payload: Bytes, rest: Bytes)
    requires Encodable(payload)
    ensures var e := EncodeList(payload);
            DecodeLength(e + rest) == Some(Header(|e| - |payload|, |payload|, ListItem))
  {
    var e := EncodeList(payload);
    var b := e + rest;
    if |payload| >= 56 {
      LongPrefix(|payload|, 0xc0, 0xf7);
      var n := |ToBE(|payload|)|;
      assert b[1..1 + n] == ToBE(|payload|);
    }
  }

  lemma {:induction false} LongIsCanonical(b: Bytes, n: nat, kind: Kind)
    requires 1 <= n <= 8 && DecodeLong(b, n, kind).Some?
    ensures var h := DecodeLong(b, n, kind).value;
            && 56 <= h.length < LENGTH_LIMIT
            && b[1..1 + n] == ToBE(h.length)
            && b[..h.End()] == [b[0]] + ToBE(h.length) + b[h.offset..h.End()]
  {
    var h := DecodeLong(b, n, kind).value;
    var be := b[1..1 + n];
    FromBEBound(be);
    Pow256Monotone(n, 8);
    LimitIsEightBytes(h.length);
    ToFromBE(be);
  }

  lemma {:induction false} ShortIsCanonical(b: Bytes)
    requires DecodeLength(b).Some? && (b[0] <= 0xb7 || 0xc0 <= b[0] <= 0xf7)
    ensures Canonical(b, DecodeLength(b).value)
  {
    var h := DecodeLength(b).value;
    if b[0] <= 0x7f {
      assert b[..1] == [b[0]];
    } else {
      assert b[..h.End()] == [b[0]] + b[1..h.End()];
    }
  }

  /** The first `h.End()` bytes of `b` encode the payload that `h` announces. */
  ghost predicate Canonical(b: Bytes, h: Header)
    requires h.End() <= |b|
  {
    var payload := b[h.offset..h.End()];
    && Encodable(payload)
    && b[..h.End()] == (if h.kind.DataItem? then EncodeString(payload) else EncodeList(payload))
  }

  /** Every accepted header is the canonical one for the payload it announces. */
  lemma {:induction false} DecodedIsCanonical(b: Bytes)
    requires DecodeLength(b).Some?
    ensures Canonical(b, DecodeLength(b).value)
  {
    var h := DecodeLength(b).value;
    if b[0] <= 0xb7 || 0xc0 <= b[0] <= 0xf7 {
      ShortIsCanonical(b);
    } else if b[0] <= 0xbf {
      LongIsCanonical(b, b[0] - 0xb7, DataItem);
      LongPrefix(h.length, 0x80, 0xb7);
    } else {
      LongIsCanonical(b, b[0] - 0xf7, ListItem);
      LongPrefix(h.length, 0xc0, 0xf7);
    }
  }

  /** `readBytes` and string encoding are mutual inverses. */
  lemma {:induction false} ReadBytesExact(b: Bytes, s: Bytes)
    ensures ReadBytes(b) == Some(s) <==> Encodable(s) && b == EncodeString(s)
  {
    if ReadBytes(b) == Some(s) {
      DecodedIsCanonical(b);
      assert b[..|b|] == b;
    }
    if Encodable(s) && b == EncodeString(s) {
      DecodeString(s, []);
      assert b + [] == b;
      var e := EncodeString(s);
      assert e[|e| - |s|..] == s;
    }
  }

  lemma {:induction false} FramedPrefix(r: Bytes, rest: Bytes)
    requires Framed(r)
    ensures DecodeLength(r + rest) == DecodeLength(r)
  {
    var h := DecodeLength(r).value;
    var payload := r[h.offset..h.End()];
    DecodedIsCanonical(r);
    assert r[..h.End()] == r && r + [] == r;
    if h.kind.DataItem? {
      DecodeString(payload, rest);
      DecodeString(payload, []);
    } else {
      DecodeList(payload, rest);
      DecodeList(payload, []);
    }
  }

  lemma {:induction false} PrefixFramed(p: Bytes)
    requires DecodeLength(p).Some?
    ensures Framed(p[..DecodeLength(p).value.End()])
    ensures DecodeLength(p[..DecodeLength(p).value.End()]) == DecodeLength(p)
  {
    var h := DecodeLength(p).value;
    var r := p[..h.End()];
    DecodedIsCanonical(p);
    var payload := p[h.offset..h.End()];
    assert r + [] == r;
    if h.kind.DataItem? {
      DecodeString(payload, p[h.End()..]);
      DecodeString(payload, []);
    } else {
      DecodeList(payload, p[h.End()..]);
      DecodeList(payload, []);
    }
    assert r + p[h.End()..] == p;
  }

  lemma {:induction false} SplitFramed(p: Bytes)
    ensures SplitItems(p).Some? ==>
              && Concat(SplitItems(p).value) == p
              && forall r | r in SplitItems(p).value :: Framed(r)
  {
    if p != [] && SplitItems(p).Some? {
      var h := DecodeLength(p).value;
      PrefixFramed(p);
      SplitFramed(p[h.End()..]);
      var rest := SplitItems(p[h.End()..]).value;
      var items := SplitItems(p).value;
      assert items[1..] == rest;
      assert p == p[..h.End()] + p[h.End()..];
    }
  }

  lemma {:induction false} SplitConcat(items: seq<Bytes>)
    requires forall r | r in items :: Framed(r)
    ensures SplitItems(Concat(items)) == Some(items)
  {
    if items != [] {
      var p := Concat(items);
      var rest := Concat(items[1..]);
      assert Framed(items[0]);
      FramedPrefix(items[0], rest);
      SplitConcat(items[1..]);
      assert p[|items[0]|..] == rest;
      assert p[..|items[0]|] == items[0];
      assert items == [items[0]] + items[1..];
    }
  }

  /** `readList` accepts exactly the canonical encodings of at most 32 framed items, and the
      items it returns tile the payload. */
  lemma {:induction false} ReadListExact(b: Bytes, items: seq<Bytes>)
    ensures ListItems(b) == Some(items) <==>
              && |items| <= MAX_LIST_LENGTH
              && (forall r | r in items :: Framed(r))
              && Encodable(Concat(items))
              && b == EncodeList(Concat(items))
  {
    if ListItems(b) == Some(items) {
      var h := DecodeLength(b).value;
      DecodedIsCanonical(b);
      SplitFramed(b[h.offset..]);
      assert b[..h.End()] == b;
    }
    if && |items| <= MAX_LIST_LENGTH
       && (forall r | r in items :: Framed(r))
       && Encodable(Concat(items))
       && b == EncodeList(Concat(items))
    {
      var p := Concat(items);
      DecodeList(p, []);
      assert b + [] == b;
      var h := DecodeLength(b).value;
      assert b[h.offset..] == p;
      SplitConcat(items);
    }
  }

  lemma {:induction false} StringFramed(s: Bytes)
    requires Encodable(s)
    ensures Framed(EncodeString(s))
  {
    DecodeString(s, []);
    assert EncodeString(s) + [] == EncodeString(s);
  }

  lemma {:induction false} ListFramed(payload: Bytes)
    requires Encodable(payload)
    ensures Framed(EncodeList(payload))
  {
    DecodeList(payload, []);
    assert EncodeList(payload) + [] == EncodeList(payload);
  }
}
