/** Modified Merkle Patricia tries (Ethereum Yellow Paper, Appendices C and D). */
module Trie {
  import opened ByteStrings
  import opened Rlp

  datatype Node =
    | Empty
    | Leaf(path: Nibbles, value: Bytes)
    | Extension(path: Nibbles, child: Node)
    | Branch(children: seq<Node>, value: Bytes)

  /** Plain lookup; the empty string stands for "absent". */
  function Lookup(n: Node, key: Nibbles): Bytes {
    match n
    case Empty => []
    case Leaf(path, value) => if key == path then value else []
    case Extension(path, child) => if path <= key then Lookup(child, key[|path|..]) else []
    case Branch(children, value) =>
      if key == [] then value
      else if key[0] < |children| then Lookup(children[key[0]], key[1..])
      else []
  }

  // ---------- hex-prefix encoding (Appendix C) ----------

  function Pack(p: Nibbles): Bytes {
    if |p| < 2 then [] else [16 * (p[0] as int) + p[1]] + Pack(p[2..])
  }

  function HexPrefix(path: Nibbles, leaf: bool): (r: Bytes)
    ensures |r| > 0
  {
    var flag: int := if leaf then 2 else 0;
    if |path| % 2 == 0 then [16 * flag] + Pack(path)
    else [16 * (flag + 1) + path[0]] + Pack(path[1..])
  }

  lemma {:induction false} PackNibbles(p: Nibbles)
    requires |p| % 2 == 0
    ensures ToNibbles(Pack(p)) == p
  {
    if p != [] {
      PackNibbles(p[2..]);
      assert p == [p[0], p[1]] + p[2..];
      assert Pack(p)[1..] == Pack(p[2..]);
    }
  }

  lemma {:induction false} ConsNibbles(b: Byte, rest: Bytes)
    ensures ToNibbles([b] + rest) == [b / 16, b % 16] + ToNibbles(rest)
  {
    assert ([b] + rest)[1..] == rest;
  }

  /** Reading a hex-prefixed path back: one flag nibble, a zero when the path is even, the path. */
  lemma {:induction false} HexPrefixNibbles(path: Nibbles, leaf: bool)
    ensures var flag := if leaf then 2 else 0;
            ToNibbles(HexPrefix(path, leaf)) ==
              (if |path| % 2 == 0 then [flag, 0] else [flag + 1]) + path
  {
    hide ToNibbles, Pack;
    var flag: int := if leaf then 2 else 0;
    if |path| % 2 == 0 {
      PackNibbles(path);
      ConsNibbles(16 * flag, Pack(path));
    } else {
      PackNibbles(path[1..]);
      ConsNibbles(16 * (flag + 1) + path[0], Pack(path[1..]));
      assert [flag + 1, path[0]] + path[1..] == [flag + 1] + path;
    }
  }

  // ---------- node encoding (Appendix D) ----------

  /** The encoded items of a node, in order. */
  function Items(H: HashFn, n: Node): seq<Bytes>
    decreases n, 0
  {
    match n
    case Empty => []
    case Leaf(path, value) => [EncodeString(HexPrefix(path, true)), EncodeString(value)]
    case Extension(path, child) => [EncodeString(HexPrefix(path, false)), Reference(H, child)]
    case Branch(children, value) =>
      seq(|children|, i requires 0 <= i < |children| => Reference(H, children[i])) + [EncodeString(value)]
  }

  function Encode(H: HashFn, n: Node): Bytes
    decreases n, 1
  {
    if n.Empty? then EncodeString([]) else EncodeList(Concat(Items(H, n)))
  }

  /** How a parent mentions a child: in place when shorter than 32 bytes, else by digest. */
  function Reference(H: HashFn, n: Node): Bytes
    decreases n, 2
  {
    var e := Encode(H, n);
    if |e| < 32 then e else EncodeString(H(e))
  }

  /** The string that identifies a node to the verifier. */
  function NodeId(H: HashFn, n: Node): Bytes {
    var e := Encode(H, n);
    if |e| < 32 then e else H(e)
  }

  function Root(H: HashFn, n: Node): Word {
    H(Encode(H, n))
  }

  /** Branches have 16 children, extensions skip at least one nibble, and every payload is short
      enough to have an RLP encoding. */
  ghost predicate WellFormed(H: HashFn, n: Node) {
    && Encodable(Concat(Items(H, n)))
    && match n
       case Empty => true
       case Leaf(path, value) => true
       case Extension(path, child) => path != [] && WellFormed(H, child)
       case Branch(children, value) =>
         |children| == 16 && forall i | 0 <= i < 16 :: WellFormed(H, children[i])
  }

  /** Every key stored under `n` has exactly `depth` nibbles. */
  ghost predicate FixedLength(n: Node, depth: int) {
    match n
    case Empty => true
    case Leaf(path, value) => |path| == depth
    case Extension(path, child) => |path| <= depth && FixedLength(child, depth - |path|)
    case Branch(children, value) =>
      if depth <= 0 then false
      else value == [] && forall c | c in children :: FixedLength(c, depth - 1)
  }

  /** Encodings of all nodes under `n`. */
  ghost function Encodings(H: HashFn, n: Node): set<Bytes> {
    {Encode(H, n)} +
    match n
    case Empty => {}
    case Leaf(_, _) => {}
    case Extension(_, child) => Encodings(H, child)
    case Branch(children, _) => set i, e | 0 <= i < |children| && e in Encodings(H, children[i]) :: e
  }
}
