/** `MerkleTrie.get` agrees with plain trie lookup, and accepts the honest proof. */
module TrieProofs {
  import opened Wrappers
  import opened ByteStrings
  import opened Rlp
  import opened RlpReader
  import opened Trie
  import opened MerkleTrie

  // ---------- what the strict reader makes of encoded nodes ----------

  lemma {:induction false} WordString(w: Word)
    ensures Encodable(w) && |EncodeString(w)| == 33
    ensures ReadBytes(EncodeString(w)) == Some(w)
  {
    ReadBytesExact(EncodeString(w), w);
  }

  lemma {:induction false} EncodingShape(H: HashFn, n: Node)
    ensures n.Empty? ==> Encode(H, n) == RLP_NULL
    ensures !n.Empty? ==> Encode(H, n)[0] >= 0xc0
  {
    if !n.Empty? {
      assert Encode(H, n) == EncodeList(Concat(Items(H, n)));
    }
  }

  lemma {:induction false} PartEncodable(parts: seq<Bytes>, i: nat)
    requires Encodable(Concat(parts)) && i < |parts|
    ensures |parts[i]| <= |Concat(parts)|
  {
    if i > 0 {
      PartEncodable(parts[1..], i - 1);
    }
  }

  lemma {:induction false} PayloadOfString(s: Bytes)
    ensures |s| <= |EncodeString(s)|
  {
  }

  lemma {:induction false} ReferenceFramed(H: HashFn, n: Node)
    requires WellFormed(H, n)
    ensures Framed(Reference(H, n))
  {
    if n.Empty? {
      StringFramed([]);
    } else {
      ListFramed(Concat(Items(H, n)));
    }
    WordString(H(Encode(H, n)));
    StringFramed(H(Encode(H, n)));
  }

  lemma {:induction false} ItemsFramed(H: HashFn, n: Node, i: nat)
    requires WellFormed(H, n) && i < |Items(H, n)|
    ensures Framed(Items(H, n)[i])
  {
    var items := Items(H, n);
    PartEncodable(items, i);
    match n
    case Empty =>
    case Leaf(path, value) =>
      var s := if i == 0 then HexPrefix(path, true) else value;
      PayloadOfString(s);
      StringFramed(s);
    case Extension(path, child) =>
      if i == 0 {
        PayloadOfString(HexPrefix(path, false));
        StringFramed(HexPrefix(path, false));
      } else {
        ReferenceFramed(H, child);
      }
    case Branch(children, value) =>
      if i < 16 {
        ReferenceFramed(H, children[i]);
      } else {
        PayloadOfString(value);
        StringFramed(value);
      }
  }

  /** A node parses back into its items. */
  lemma {:induction false} ParseNode(H: HashFn, n: Node)
    requires WellFormed(H, n)
    ensures ListItems(Encode(H, n)) == if n.Empty? then None else Some(Items(H, n))
  {
    if !n.Empty? {
      forall r | r in Items(H, n) ensures Framed(r) {
        var i :| 0 <= i < |Items(H, n)| && Items(H, n)[i] == r;
        ItemsFramed(H, n, i);
      }
      ReadListExact(Encode(H, n), Items(H, n));
    }
  }

  /** The id read from a reference identifies the child. */
  lemma {:induction false} IdOfReference(H: HashFn, n: Node)
    ensures GetNodeID(Reference(H, n)) == Some(NodeId(H, n))
  {
    WordString(H(Encode(H, n)));
  }

  /** A short item is an id by itself; a longer one has to be the encoding of a string, which is the id. */
  lemma {:induction false} IdOfItem(item: Bytes, s: Bytes)
    requires Encodable(s)
    ensures |item| < 32 ==> GetNodeID(item) == Some(item)
    ensures |item| >= 32 ==> (GetNodeID(item) == Some(s) <==> item == EncodeString(s))
  {
    ReadBytesExact(item, s);
  }

  lemma {:induction false} ReadItem(s: Bytes, items: seq<Bytes>, i: nat)
    requires i < |items| && items[i] == EncodeString(s) && Encodable(Concat(items))
    ensures ReadBytes(items[i]) == Some(s)
  {
    PartEncodable(items, i);
    PayloadOfString(s);
    ReadBytesExact(items[i], s);
  }

  // ---------- one step of the walk ----------

  /** What visiting node `n` with `rest` of the key left should decide. */
  ghost function ExpectedStep(H: HashFn, n: Node, rest: Nibbles, index: nat, id: Bytes): Step
    requires WellFormed(H, n) && !n.Empty?
  {
    match n
    case Leaf(path, value) =>
      if |rest| < |path| then Revert
      else if rest == path then Stop(index + |path|, RLP_NULL)
      else Stop(index, RLP_NULL)
    case Extension(path, child) =>
      if |rest| < |path| then Revert
      else if path <= rest then Descend(NodeId(H, child), |path|)
      else Stop(index, RLP_NULL)
    case Branch(children, value) =>
      if rest == [] then Stop(index, id)
      else Descend(NodeId(H, children[rest[0]]), 1)
  }

  lemma {:induction false} SharedIsPrefix(path: Nibbles, rest: Nibbles)
    ensures SharedLength(path, rest) == |path| <==> path <= rest
    ensures SharedLength(path, rest) == |path| == |rest| <==> path == rest
  {
    if path <= rest {
      SharedLengthUnique(path, rest, |path|);
    }
    var n := SharedLength(path, rest);
    assert n == |path| ==> path[..n] == path && path == rest[..|path|];
    assert |path| == |rest| ==> rest[..|rest|] == rest;
  }

  /** A hex-prefixed path, its flag nibble stripped. */
  lemma {:induction false} StripPrefix(path: Nibbles, leaf: bool)
    ensures var full := ToNibbles(HexPrefix(path, leaf));
            && full != []
            && full[0] == (if leaf then 2 else 0) + |path| % 2
            && SliceFrom(full, 2 - full[0] % 2) == path
  {
    HexPrefixNibbles(path, leaf);
    var full := ToNibbles(HexPrefix(path, leaf));
    if |path| % 2 == 0 {
      assert full[2..] == path;
    } else {
      assert full[1..] == path;
    }
  }

  lemma {:induction false} PathOfItem(path: Nibbles, leaf: bool, items: seq<Bytes>, encoded: Bytes)
    requires |items| == 2 && items[0] == EncodeString(HexPrefix(path, leaf)) && Encodable(Concat(items))
    ensures GetNodePath(TrieNode(encoded, items)) == Some(ToNibbles(HexPrefix(path, leaf)))
  {
    ReadItem(HexPrefix(path, leaf), items, 0);
  }

  lemma {:induction false} VisitLeaf(H: HashFn, n: Node, key: Nibbles, index: nat, id: Bytes)
    requires WellFormed(H, n) && n.Leaf? && index <= |key|
    ensures Visit(TrieNode(Encode(H, n), Items(H, n)), key, index, id) == ExpectedStep(H, n, key[index..], index, id)
  {
    hide GetNodePath, HexPrefix, ToNibbles, EncodeString, Concat;
    PathOfItem(n.path, true, Items(H, n), Encode(H, n));
    StripPrefix(n.path, true);
    SharedIsPrefix(n.path, key[index..]);
    assert SliceFrom(key, index) == key[index..];
  }

  lemma {:induction false} VisitExtension(H: HashFn, n: Node, key: Nibbles, index: nat, id: Bytes)
    requires WellFormed(H, n) && n.Extension? && index <= |key|
    ensures Visit(TrieNode(Encode(H, n), Items(H, n)), key, index, id) == ExpectedStep(H, n, key[index..], index, id)
  {
    hide GetNodePath, HexPrefix, ToNibbles, EncodeString, Concat;
    PathOfItem(n.path, false, Items(H, n), Encode(H, n));
    StripPrefix(n.path, false);
    SharedIsPrefix(n.path, key[index..]);
    assert SliceFrom(key, index) == key[index..];
    IdOfReference(H, n.child);
  }

  lemma {:induction false} VisitNode(H: HashFn, n: Node, key: Nibbles, index: nat, id: Bytes)
    requires WellFormed(H, n) && !n.Empty? && index <= |key|
    ensures Visit(TrieNode(Encode(H, n), Items(H, n)), key, index, id) == ExpectedStep(H, n, key[index..], index, id)
  {
    match n
    case Leaf(_, _) => VisitLeaf(H, n, key, index, id);
    case Extension(_, _) => VisitExtension(H, n, key, index, id);
    case Branch(children, _) =>
      if index < |key| {
        IdOfReference(H, children[key[index]]);
        assert Items(H, n)[key[index]] == Reference(H, children[key[index]]);
      }
  }

  /** The child in which the walk goes on below `n`. */
  ghost function NextNode(H: HashFn, n: Node, rest: Nibbles): Node
    requires WellFormed(H, n) && !n.Empty? && ExpectedStep(H, n, rest, 0, []).Descend?
  {
    if n.Extension? then n.child else n.children[rest[0]]
  }

  lemma {:induction false} NextNodeShape(H: HashFn, n: Node, key: Nibbles, at: nat)
    requires WellFormed(H, n) && !n.Empty? && at <= |key| && ExpectedStep(H, n, key[at..], 0, []).Descend?
    ensures var step := ExpectedStep(H, n, key[at..], 0, []);
            var child := NextNode(H, n, key[at..]);
            && WellFormed(H, child) && child < n
            && step.id == NodeId(H, child)
            && 0 < step.increment <= |key| - at
  {
  }

  lemma {:induction false} NextNodeEncodings(H: HashFn, n: Node, rest: Nibbles)
    requires WellFormed(H, n) && !n.Empty? && ExpectedStep(H, n, rest, 0, []).Descend?
    ensures Encodings(H, NextNode(H, n, rest)) <= Encodings(H, n)
  {
  }

  lemma {:induction false} ExtensionLookup(path: Nibbles, child: Node, key: Nibbles, at: nat)
    requires at <= |key| && path <= key[at..]
    ensures Lookup(Extension(path, child), key[at..]) == Lookup(child, key[at + |path|..])
  {
    assert key[at..][|path|..] == key[at + |path|..];
  }

  lemma {:induction false} BranchLookup(children: seq<Node>, value: Bytes, key: Nibbles, at: nat)
    requires at < |key| && |children| == 16
    ensures Lookup(Branch(children, value), key[at..]) == Lookup(children[key[at]], key[at + 1..])
  {
    assert key[at..][1..] == key[at + 1..];
  }

  lemma {:induction false} NextNodeLookup(H: HashFn, n: Node, key: Nibbles, at: nat)
    requires WellFormed(H, n) && !n.Empty? && at <= |key| && ExpectedStep(H, n, key[at..], 0, []).Descend?
    ensures var step := ExpectedStep(H, n, key[at..], 0, []);
            step.increment <= |key| - at
            && Lookup(n, key[at..]) == Lookup(NextNode(H, n, key[at..]), key[at + step.increment..])
  {
    hide Lookup, Encode, Items, NodeId;
    match n
    case Extension(path, child) => ExtensionLookup(path, child, key, at);
    case Branch(children, value) => BranchLookup(children, value, key, at);
  }

  /** `get` ends in `v` when the walk ends in `w`. */
  ghost predicate Yields(nodes: seq<TrieNode>, w: Option<Walk>, v: Option<Bytes>) {
    && (w.Some? ==> w.value.pathLength <= |nodes|)
    && Finish(nodes, w) == v
  }

  /** A walk that stops at `n` finds what the trie binds to the rest of the key. */
  lemma {:induction false} StopFindsLookup(H: HashFn, nodes: seq<TrieNode>, key: Nibbles, i: nat, at: nat, id: Bytes,
                                           n: Node)
    requires i < |nodes| && nodes[i] == TrieNode(Encode(H, n), Items(H, n))
    requires WellFormed(H, n) && !n.Empty? && at <= |key|
    requires ExpectedStep(H, n, key[at..], at, id).Stop?
    ensures var step := ExpectedStep(H, n, key[at..], at, id);
            var w := Some(Walk(i + 1, SliceFrom(key, step.index), Equal(H, step.id, RLP_NULL)));
            Yields(nodes, w, Some(Lookup(n, key[at..])))
  {
    match n
    case Leaf(path, value) => ReadItem(value, Items(H, n), 1);
    case Extension(_, _) =>
    case Branch(_, value) => ReadItem(value, Items(H, n), 16);
  }

  // ---------- soundness ----------

  /** Every string the verifier may hash while checking `proof` against the trie `n`. */
  ghost function HashedStrings(H: HashFn, n: Node, proof: seq<Bytes>): set<Bytes> {
    var base := {RLP_NULL} + Encodings(H, n) + set e | e in proof;
    base + set e | e in base :: H(e)
  }

  /** A proof element that passes the id check is the encoding of the node with that id. */
  lemma {:induction false} IdentifiedIsNode(H: HashFn, e: Bytes, index: nat, n: Node, s: set<Bytes>)
    requires CollisionFree(H, s)
    requires {e, Encode(H, n), H(e), H(Encode(H, n))} <= s
    requires Identified(H, e, index, if index == 0 then H(Encode(H, n)) else NodeId(H, n))
    ensures e == Encode(H, n)
  {
  }

  /** Only the empty trie answers to the null id. */
  lemma {:induction false} NullIdIsEmpty(H: HashFn, n: Node, index: nat, s: set<Bytes>)
    requires CollisionFree(H, s)
    requires {RLP_NULL, Encode(H, n), H(Encode(H, n))} <= s
    ensures Equal(H, if index == 0 then H(Encode(H, n)) else NodeId(H, n), RLP_NULL) ==> index > 0 && n.Empty?
  {
    EncodingShape(H, n);
    assert |RLP_NULL| == 1;
  }

  /** Parsed proof elements whose strings, and their digests, are all in `s`. */
  ghost predicate Covered(H: HashFn, nodes: seq<TrieNode>, s: set<Bytes>) {
    && CollisionFree(H, s) && RLP_NULL in s
    && (forall k | 0 <= k < |nodes| :: Some(nodes[k].decoded) == ListItems(nodes[k].encoded))
    && (forall k | 0 <= k < |nodes| :: nodes[k].encoded in s && H(nodes[k].encoded) in s)
  }

  /** All nodes under `n`, and their digests, are in `s`. */
  ghost predicate Known(H: HashFn, n: Node, s: set<Bytes>) {
    forall e | e in Encodings(H, n) :: e in s && H(e) in s
  }

  /** What descending from `n` keeps. */
  lemma {:induction false} DescendKeeps(H: HashFn, n: Node, key: Nibbles, at: nat, id: Bytes, s: set<Bytes>)
    requires WellFormed(H, n) && !n.Empty? && at <= |key| && ExpectedStep(H, n, key[at..], at, id).Descend?
    ensures ExpectedStep(H, n, key[at..], 0, []) == ExpectedStep(H, n, key[at..], at, id)
    ensures Known(H, n, s) ==> Known(H, NextNode(H, n, key[at..]), s)
  {
    hide Encodings, Encode, Items, NodeId;
    NextNodeEncodings(H, n, key[at..]);
  }

  /** A proof element that passes the id check is node `n`, which then is not empty. */
  lemma {:induction false} ArriveAt(H: HashFn, nodes: seq<TrieNode>, i: nat, at: nat, id: Bytes, n: Node, s: set<Bytes>)
    requires i < |nodes| && WellFormed(H, n) && Covered(H, nodes, s) && Known(H, n, s)
    requires id == (if at == 0 then H(Encode(H, n)) else NodeId(H, n)) && Identified(H, nodes[i].encoded, at, id)
    ensures !n.Empty? && nodes[i] == TrieNode(Encode(H, n), Items(H, n)) && Identified(H, Encode(H, n), at, id)
  {
    hide Identified, ListItems, WellFormed, Items, Encode;
    IdentifiedIsNode(H, nodes[i].encoded, at, n, s);
    ParseNode(H, n);
  }

  /** One iteration at node `n`. */
  lemma {:induction false} WalkStep(H: HashFn, nodes: seq<TrieNode>, key: Nibbles, i: nat, id: Bytes, index: nat,
                                    increment: nat, n: Node)
    requires i < |nodes| && WellFormed(H, n) && !n.Empty? && index + increment <= |key|
    requires nodes[i] == TrieNode(Encode(H, n), Items(H, n)) && Identified(H, Encode(H, n), index + increment, id)
    ensures var at := index + increment;
            WalkFrom(H, nodes, key, i, id, index, increment) ==
              match ExpectedStep(H, n, key[at..], at, id)
              case Revert => None
              case Stop(end, last) => Some(Walk(i + 1, SliceFrom(key, end), Equal(H, last, RLP_NULL)))
              case Descend(next, inc) => WalkFrom(H, nodes, key, i + 1, next, at, inc)
  {
    hide Visit, Identified;
    VisitNode(H, n, key, index + increment, id);
  }

  /** The walk `w` reverts in the end or finds `v`. */
  ghost predicate Finds(nodes: seq<TrieNode>, w: Option<Walk>, v: Bytes) {
    Yields(nodes, w, None) || Yields(nodes, w, Some(v))
  }

  lemma {:induction false} RevertFinds(nodes: seq<TrieNode>, v: Bytes)
    ensures Finds(nodes, None, v)
  {
  }

  lemma {:induction false} YieldsFinds(nodes: seq<TrieNode>, w: Option<Walk>, v: Bytes)
    requires Yields(nodes, w, Some(v))
    ensures Finds(nodes, w, v)
  {
  }

  lemma {:induction false} UnidentifiedReverts(H: HashFn, nodes: seq<TrieNode>, key: Nibbles, i: nat, id: Bytes,
                                               index: nat, increment: nat)
    requires i < |nodes| && !Identified(H, nodes[i].encoded, index + increment, id)
    ensures WalkFrom(H, nodes, key, i, id, index, increment) == None
  {
  }

  /** A proof that is used up before the walk stops shows at most that the subtrie is empty. */
  lemma {:induction false} EndFinds(H: HashFn, nodes: seq<TrieNode>, key: Nibbles, id: Bytes, index: nat,
                                    increment: nat, n: Node, s: set<Bytes>)
    requires index + increment <= |key| && (increment == 0 ==> |nodes| == 0 && index == 0)
    requires id == if index + increment == 0 then H(Encode(H, n)) else NodeId(H, n)
    requires Covered(H, nodes, s) && Known(H, n, s)
    ensures Finds(nodes, WalkFrom(H, nodes, key, |nodes|, id, index, increment), Lookup(n, key[index + increment..]))
  {
    NullIdIsEmpty(H, n, index + increment, s);
  }

  lemma {:induction false} WalkSound(H: HashFn, nodes: seq<TrieNode>, key: Nibbles, i: nat, id: Bytes, index: nat,
                                     increment: nat, n: Node, s: set<Bytes>)
    requires i <= |nodes| && WellFormed(H, n) && index + increment <= |key|
    requires increment == 0 ==> i == 0 && index == 0
    requires id == if index + increment == 0 then H(Encode(H, n)) else NodeId(H, n)
    requires Covered(H, nodes, s)
    requires Known(H, n, s)
    ensures Finds(nodes, WalkFrom(H, nodes, key, i, id, index, increment), Lookup(n, key[index + increment..]))
    decreases |nodes| - i
  {
    hide WalkFrom, Identified, Finds, Lookup, WellFormed, Items, Encode, NodeId, Covered, Known, ExpectedStep;
    var at := index + increment;
    var rest := key[at..];
    RevertFinds(nodes, Lookup(n, rest));
    if i == |nodes| {
      EndFinds(H, nodes, key, id, index, increment, n, s);
    } else if !Identified(H, nodes[i].encoded, at, id) {
      UnidentifiedReverts(H, nodes, key, i, id, index, increment);
    } else {
      ArriveAt(H, nodes, i, at, id, n, s);
      WalkStep(H, nodes, key, i, id, index, increment, n);
      match ExpectedStep(H, n, rest, at, id)
      case Revert =>
      case Stop(_, _) =>
        StopFindsLookup(H, nodes, key, i, at, id, n);
        YieldsFinds(nodes, WalkFrom(H, nodes, key, i, id, index, increment), Lookup(n, rest));
      case Descend(next, inc) =>
        DescendKeeps(H, n, key, at, id, s);
        NextNodeShape(H, n, key, at);
        NextNodeLookup(H, n, key, at);
        WalkSound(H, nodes, key, i + 1, next, at, inc, NextNode(H, n, rest), s);
    }
  }

  /** Whatever the proof, `get` either reverts or returns exactly what the trie binds to the key,
      unless the proof exhibits a hash collision with a node of the trie. */
  lemma {:induction false} GetSound(H: HashFn, n: Node, key: Bytes, proof: seq<Bytes>)
    requires WellFormed(H, n)
    requires CollisionFree(H, HashedStrings(H, n, proof))
    ensures var v := Value(H, key, proof, Root(H, n));
            v.None? || v == Some(Lookup(n, ToNibbles(key)))
  {
    hide Covered, Known, CollisionFree, HashedStrings, Encode, WellFormed, Lookup, WalkFrom;
    if Parse(proof).Some? {
      var nibbles := ToNibbles(key);
      assert nibbles[0..] == nibbles;
      ProofCovered(H, n, proof);
      WalkSound(H, Parse(proof).value, nibbles, 0, Root(H, n), 0, 0, n, HashedStrings(H, n, proof));
    }
  }

  /** An inclusion proof that does not revert says exactly whether the trie binds the key to this value; the
      empty value is never included. */
  lemma {:induction false} InclusionSound(H: HashFn, n: Node, key: Bytes, value: Bytes, proof: seq<Bytes>)
    requires WellFormed(H, n) && CollisionFree(H, HashedStrings(H, n, proof))
    requires CollisionFree(H, {value, Lookup(n, ToNibbles(key))})
    ensures var included := Verify(H, key, value, proof, Root(H, n));
            included.Some? ==> (included.value <==> value != [] && Lookup(n, ToNibbles(key)) == value)
  {
    hide Value, HashedStrings, WellFormed, Root, Lookup;
    GetSound(H, n, key, proof);
  }

  lemma {:induction false} ProofCovered(H: HashFn, n: Node, proof: seq<Bytes>)
    requires Parse(proof).Some? && CollisionFree(H, HashedStrings(H, n, proof))
    ensures Covered(H, Parse(proof).value, HashedStrings(H, n, proof)) && Known(H, n, HashedStrings(H, n, proof))
  {
    hide Encodings, ListItems, CollisionFree;
    var base := {RLP_NULL} + Encodings(H, n) + set e | e in proof;
    var s := HashedStrings(H, n, proof);
    assert forall e | e in base :: e in s && H(e) in s;
    assert forall k | 0 <= k < |proof| :: proof[k] in base;
  }

  // ---------- completeness ----------

  /** The nodes on the path of `key`, top down, inlined ones as elements of their own. */
  ghost function HonestProof(H: HashFn, n: Node, key: Nibbles): seq<Bytes>
    requires WellFormed(H, n)
  {
    match n
    case Empty => []
    case Leaf(_, _) => [Encode(H, n)]
    case Extension(path, child) =>
      [Encode(H, n)] + if path <= key then HonestProof(H, child, key[|path|..]) else []
    case Branch(children, _) =>
      [Encode(H, n)] + if key == [] then [] else HonestProof(H, children[key[0]], key[1..])
  }

  /** The key runs out inside the path of a leaf or extension. */
  ghost predicate EndsInside(H: HashFn, n: Node, key: Nibbles)
    requires WellFormed(H, n)
  {
    match n
    case Empty => false
    case Leaf(path, _) => |key| < |path|
    case Extension(path, child) => |key| < |path| || (path <= key && EndsInside(H, child, key[|path|..]))
    case Branch(children, _) => key != [] && EndsInside(H, children[key[0]], key[1..])
  }

  lemma {:induction false} HonestProofParses(H: HashFn, n: Node, key: Nibbles, i: nat)
    requires WellFormed(H, n) && i < |HonestProof(H, n, key)|
    ensures ListItems(HonestProof(H, n, key)[i]).Some?
    decreases n
  {
    ParseNode(H, n);
    if i > 0 {
      match n
      case Extension(path, child) => HonestProofParses(H, child, key[|path|..], i - 1);
      case Branch(children, _) => HonestProofParses(H, children[key[0]], key[1..], i - 1);
    }
  }

  lemma {:induction false} EndsInsideStep(H: HashFn, n: Node, rest: Nibbles, at: nat, id: Bytes)
    requires WellFormed(H, n) && !n.Empty?
    ensures ExpectedStep(H, n, rest, at, id).Revert? ==> EndsInside(H, n, rest)
    ensures ExpectedStep(H, n, rest, at, id).Stop? ==> !EndsInside(H, n, rest)
  {
  }

  lemma {:induction false} ExtensionHonest(H: HashFn, n: Node, key: Nibbles, at: nat)
    requires WellFormed(H, n) && n.Extension? && at <= |key| && n.path <= key[at..]
    ensures HonestProof(H, n, key[at..]) == [Encode(H, n)] + HonestProof(H, n.child, key[at + |n.path|..])
    ensures EndsInside(H, n, key[at..]) <==> EndsInside(H, n.child, key[at + |n.path|..])
  {
    hide Encode, Items, Encodable;
    assert key[at..][|n.path|..] == key[at + |n.path|..];
  }

  lemma {:induction false} BranchHonest(H: HashFn, n: Node, key: Nibbles, at: nat)
    requires WellFormed(H, n) && n.Branch? && at < |key|
    ensures HonestProof(H, n, key[at..]) == [Encode(H, n)] + HonestProof(H, n.children[key[at]], key[at + 1..])
    ensures EndsInside(H, n, key[at..]) <==> EndsInside(H, n.children[key[at]], key[at + 1..])
  {
    hide Encode, Items, Encodable;
    assert key[at..][1..] == key[at + 1..];
  }

  lemma {:induction false} NextNodeHonest(H: HashFn, n: Node, key: Nibbles, at: nat)
    requires WellFormed(H, n) && !n.Empty? && at <= |key| && ExpectedStep(H, n, key[at..], 0, []).Descend?
    ensures var step := ExpectedStep(H, n, key[at..], 0, []);
            var child := NextNode(H, n, key[at..]);
            && step.increment <= |key| - at && WellFormed(H, child)
            && HonestProof(H, n, key[at..]) == [Encode(H, n)] + HonestProof(H, child, key[at + step.increment..])
            && (EndsInside(H, n, key[at..]) <==> EndsInside(H, child, key[at + step.increment..]))
  {
    hide HonestProof, EndsInside, Encode, Items, NodeId;
    match n
    case Extension(path, child) => ExtensionHonest(H, n, key, at);
    case Branch(children, value) => BranchHonest(H, n, key, at);
  }

  /** The encodings of `nodes[i..]`. */
  ghost function EncodedFrom(nodes: seq<TrieNode>, i: nat): seq<Bytes>
    requires i <= |nodes|
    decreases |nodes| - i
  {
    if i == |nodes| then [] else [nodes[i].encoded] + EncodedFrom(nodes, i + 1)
  }

  lemma {:induction false} EncodedFromParse(proof: seq<Bytes>, i: nat)
    requires Parse(proof).Some? && i <= |proof|
    ensures EncodedFrom(Parse(proof).value, i) == proof[i..]
    decreases |proof| - i
  {
    if i < |proof| {
      EncodedFromParse(proof, i + 1);
    }
  }

  lemma {:induction false} EndYields(H: HashFn, nodes: seq<TrieNode>, key: Nibbles, id: Bytes, index: nat,
                                     increment: nat)
    requires 0 < increment && index + increment <= |key| && id == RLP_NULL
    ensures Yields(nodes, WalkFrom(H, nodes, key, |nodes|, id, index, increment),
                   Some(Lookup(Empty, key[index + increment..])))
  {
  }

  lemma {:induction false} RevertYields(nodes: seq<TrieNode>)
    ensures Yields(nodes, None, None)
  {
  }

  lemma {:induction false} ConsInjective(a: Bytes, b: Bytes, s: seq<Bytes>, t: seq<Bytes>)
    requires [a] + s == [b] + t
    ensures a == b && s == t
  {
    assert ([a] + s)[0] == a && ([b] + t)[0] == b;
    assert ([a] + s)[1..] == s && ([b] + t)[1..] == t;
  }

  lemma {:induction false} HonestHead(H: HashFn, n: Node, rest: Nibbles, nodes: seq<TrieNode>, i: nat)
    requires i <= |nodes| && WellFormed(H, n) && EncodedFrom(nodes, i) == HonestProof(H, n, rest)
    requires forall k | 0 <= k < |nodes| :: Some(nodes[k].decoded) == ListItems(nodes[k].encoded)
    ensures n.Empty? ==> i == |nodes|
    ensures !n.Empty? ==> i < |nodes| && nodes[i] == TrieNode(Encode(H, n), Items(H, n))
  {
    hide ListItems, Items, Encode, WellFormed;
    if !n.Empty? {
      assert EncodedFrom(nodes, i)[0] == HonestProof(H, n, rest)[0] == Encode(H, n);
      ParseNode(H, n);
    }
  }

  lemma {:induction false} WalkComplete(H: HashFn, nodes: seq<TrieNode>, key: Nibbles, i: nat, id: Bytes, index: nat,
                                        increment: nat, n: Node)
    requires i <= |nodes| && WellFormed(H, n) && index + increment <= |key|
    requires increment == 0 ==> i == 0 && index == 0 && !n.Empty?
    requires id == if index + increment == 0 then H(Encode(H, n)) else NodeId(H, n)
    requires forall k | 0 <= k < |nodes| :: Some(nodes[k].decoded) == ListItems(nodes[k].encoded)
    requires EncodedFrom(nodes, i) == HonestProof(H, n, key[index + increment..])
    ensures var rest := key[index + increment..];
            Yields(nodes, WalkFrom(H, nodes, key, i, id, index, increment),
                   if EndsInside(H, n, rest) then None else Some(Lookup(n, rest)))
    decreases n
  {
    hide WalkFrom, Finish, Lookup, HonestProof, ListItems, WellFormed, Items, Encode;
    var at := index + increment;
    var rest := key[at..];
    HonestHead(H, n, rest, nodes, i);
    if n.Empty? {
      EncodingShape(H, n);
      EndYields(H, nodes, key, id, index, increment);
    } else {
      WalkStep(H, nodes, key, i, id, index, increment, n);
      EndsInsideStep(H, n, rest, at, id);
      match ExpectedStep(H, n, rest, at, id)
      case Revert =>
        RevertYields(nodes);
      case Stop(_, _) =>
        StopFindsLookup(H, nodes, key, i, at, id, n);
      case Descend(next, inc) =>
        NextNodeShape(H, n, key, at);
        NextNodeLookup(H, n, key, at);
        NextNodeHonest(H, n, key, at);
        var child := NextNode(H, n, rest);
        ConsInjective(nodes[i].encoded, Encode(H, n), EncodedFrom(nodes, i + 1),
                      HonestProof(H, child, key[at + inc..]));
        WalkComplete(H, nodes, key, i + 1, next, at, inc, child);
    }
  }

  /** What no proof can answer: any key in the empty trie, and a key that runs out inside a path. */
  ghost predicate Unprovable(H: HashFn, n: Node, key: Nibbles)
    requires WellFormed(H, n)
  {
    n.Empty? || EndsInside(H, n, key)
  }

  /** The honest proof is accepted, with the right answer, exactly when the trie is not empty and the
      key does not run out inside the path of a leaf or extension. */
  lemma {:induction false} GetComplete(H: HashFn, n: Node, key: Bytes)
    requires WellFormed(H, n)
    requires n.Empty? ==> CollisionFree(H, {RLP_NULL, H(RLP_NULL)})
    ensures var nibbles := ToNibbles(key);
            Value(H, key, HonestProof(H, n, nibbles), Root(H, n))
            == if Unprovable(H, n, nibbles) then None else Some(Lookup(n, nibbles))
  {
    var nibbles := ToNibbles(key);
    var proof := HonestProof(H, n, nibbles);
    if n.Empty? {
      EncodingShape(H, n);
      assert |RLP_NULL| == 1;
    } else {
      forall i | 0 <= i < |proof| ensures ListItems(proof[i]).Some? {
        HonestProofParses(H, n, nibbles, i);
      }
      assert nibbles[0..] == nibbles;
      EncodedFromParse(proof, 0);
      WalkComplete(H, Parse(proof).value, nibbles, 0, Root(H, n), 0, 0, n);
    }
  }

  // ---------- what has no proof ----------

  /** A proof that is used up before the walk reaches the end of a key says nothing, unless it has led
      to an empty subtrie. */
  lemma {:induction false} EndRefused(H: HashFn, nodes: seq<TrieNode>, key: Nibbles, id: Bytes, index: nat,
                                      increment: nat, n: Node, s: set<Bytes>)
    requires index + increment <= |key| && (increment == 0 ==> |nodes| == 0 && index == 0)
    requires id == if index + increment == 0 then H(Encode(H, n)) else NodeId(H, n)
    requires Covered(H, nodes, s) && Known(H, n, s)
    requires index + increment > 0 ==> !n.Empty?
    ensures Yields(nodes, WalkFrom(H, nodes, key, |nodes|, id, index, increment), None)
  {
    NullIdIsEmpty(H, n, index + increment, s);
  }

  /** The rest of the key at `n` cannot be answered. */
  ghost predicate Refusable(H: HashFn, n: Node, key: Nibbles, at: nat)
    requires WellFormed(H, n) && at <= |key|
  {
    EndsInside(H, n, key[at..]) || (n.Empty? && at == 0)
  }

  lemma {:induction false} RefusableStep(H: HashFn, n: Node, key: Nibbles, at: nat, id: Bytes)
    requires WellFormed(H, n) && at <= |key| && Refusable(H, n, key, at)
    ensures at > 0 ==> !n.Empty?
    ensures !n.Empty? && ExpectedStep(H, n, key[at..], at, id).Descend? ==>
              var step := ExpectedStep(H, n, key[at..], 0, []);
              && step == ExpectedStep(H, n, key[at..], at, id) && WellFormed(H, NextNode(H, n, key[at..]))
              && step.increment <= |key| - at && Refusable(H, NextNode(H, n, key[at..]), key, at + step.increment)
    ensures !n.Empty? ==> !ExpectedStep(H, n, key[at..], at, id).Stop?
  {
    hide Encode, Items, NodeId, HonestProof;
    if !n.Empty? {
      EndsInsideStep(H, n, key[at..], at, id);
      if ExpectedStep(H, n, key[at..], at, id).Descend? {
        NextNodeHonest(H, n, key, at);
      }
    }
  }

  lemma {:induction false} WalkRefused(H: HashFn, nodes: seq<TrieNode>, key: Nibbles, i: nat, id: Bytes, index: nat,
                                       increment: nat, n: Node, s: set<Bytes>)
    requires i <= |nodes| && WellFormed(H, n) && index + increment <= |key|
    requires increment == 0 ==> i == 0 && index == 0
    requires id == if index + increment == 0 then H(Encode(H, n)) else NodeId(H, n)
    requires Covered(H, nodes, s)
    requires Known(H, n, s)
    requires Refusable(H, n, key, index + increment)
    ensures Yields(nodes, WalkFrom(H, nodes, key, i, id, index, increment), None)
    decreases |nodes| - i
  {
    hide WalkFrom, Identified, Yields, WellFormed, Items, Encode, NodeId, Covered, Known, ExpectedStep, Refusable;
    var at := index + increment;
    var rest := key[at..];
    RevertYields(nodes);
    RefusableStep(H, n, key, at, id);
    if i == |nodes| {
      EndRefused(H, nodes, key, id, index, increment, n, s);
    } else if !Identified(H, nodes[i].encoded, at, id) {
      UnidentifiedReverts(H, nodes, key, i, id, index, increment);
    } else {
      ArriveAt(H, nodes, i, at, id, n, s);
      WalkStep(H, nodes, key, i, id, index, increment, n);
      match ExpectedStep(H, n, rest, at, id)
      case Descend(next, inc) =>
        DescendKeeps(H, n, key, at, id, s);
        NextNodeShape(H, n, key, at);
        WalkRefused(H, nodes, key, i + 1, next, at, inc, NextNode(H, n, rest), s);
      case _ =>
    }
  }

  /** The condition is exact for all proofs, not just the honest one: where it fails, `get` reverts on
      every proof that exhibits no hash collision. */
  lemma {:induction false} NoProofAccepted(H: HashFn, n: Node, key: Bytes, proof: seq<Bytes>)
    requires WellFormed(H, n) && Unprovable(H, n, ToNibbles(key))
    requires CollisionFree(H, HashedStrings(H, n, proof))
    ensures Value(H, key, proof, Root(H, n)).None?
  {
    hide Covered, Known, CollisionFree, HashedStrings, Encode, WellFormed, WalkFrom;
    if Parse(proof).Some? {
      var nibbles := ToNibbles(key);
      assert nibbles[0..] == nibbles;
      ProofCovered(H, n, proof);
      WalkRefused(H, Parse(proof).value, nibbles, 0, Root(H, n), 0, 0, n, HashedStrings(H, n, proof));
    }
  }

  /** In particular nothing can be shown absent from the empty trie, although everything is. */
  lemma {:induction false} EmptyTrieHasNoProof(H: HashFn, key: Bytes, proof: seq<Bytes>)
    requires CollisionFree(H, HashedStrings(H, Empty, proof))
    ensures WellFormed(H, Empty) && Lookup(Empty, ToNibbles(key)) == []
    ensures Value(H, key, proof, Root(H, Empty)).None?
  {
    assert WellFormed(H, Empty);
    NoProofAccepted(H, Empty, key, proof);
  }

  /** A trie with the one key 0x12, asked for the empty key: the key is absent, but its honest proof is
      refused. */
  lemma {:induction false} ShortKeyReverts(H: HashFn)
    ensures var n := Leaf([1, 2], [7]);
            && WellFormed(H, n) && ToNibbles([0x12]) == [1, 2] && Lookup(n, ToNibbles([])) == []
            && Value(H, [], HonestProof(H, n, ToNibbles([])), Root(H, n)).None?
  {
    hide Value, HonestProof, Root, Encode, HexPrefix, Pack;
    var n := Leaf([1, 2], [7]);
    var path, value := EncodeString(HexPrefix([1, 2], true)), EncodeString([7]);
    assert |HexPrefix([1, 2], true)| == 2 by { HexPrefixNibbles([1, 2], true); }
    assert Items(H, n) == [path, value];
    ConcatAppend([path], [value]);
    assert [path] + [value] == [path, value];
    assert Concat([path]) == path && Concat([value]) == value;
    ToNibblesAt([0x12], 0);
    GetComplete(H, n, []);
  }

  /** In a trie of fixed-length keys, no key of that length runs out early. */
  lemma {:induction false} FixedLengthNeverInside(H: HashFn, n: Node, key: Nibbles)
    requires WellFormed(H, n) && FixedLength(n, |key|)
    ensures !EndsInside(H, n, key)
    decreases n
  {
    match n
    case Extension(path, child) =>
      if path <= key {
        FixedLengthNeverInside(H, child, key[|path|..]);
      }
    case Branch(children, _) =>
      assert children[key[0]] in children;
      FixedLengthNeverInside(H, children[key[0]], key[1..]);
    case _ =>
  }

  /** So for hashed keys only the empty trie is out of reach. */
  lemma {:induction false} FixedLengthProvable(H: HashFn, n: Node, key: Nibbles)
    requires WellFormed(H, n) && FixedLength(n, |key|)
    ensures Unprovable(H, n, key) <==> n.Empty?
  {
    FixedLengthNeverInside(H, n, key);
  }
}
