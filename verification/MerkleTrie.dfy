/** The proof verifier `MerkleTrie`: it walks caller-supplied nodes down from a root hash. */
module MerkleTrie {
  import opened Wrappers
  import opened ByteStrings
  import opened RlpReader

  const BRANCH_NODE_LENGTH := 17
  const LEAF_OR_EXTENSION_NODE_LENGTH := 2
  const PREFIX_EXTENSION_EVEN := 0
  const PREFIX_EXTENSION_ODD := 1
  const PREFIX_LEAF_EVEN := 2
  const PREFIX_LEAF_ODD := 3
  const RLP_NULL: Bytes := [0x80]

  datatype TrieNode = TrieNode(encoded: Bytes, decoded: seq<Bytes>)

  /** Two-argument `Bytes.slice`: empty, not a revert, past the end. */
  function SliceFrom(key: Nibbles, start: nat): Nibbles {
    if start >= |key| then [] else key[start..]
  }

  function GetNodeID(item: Bytes): Option<Bytes> {
    if |item| < 32 then Some(item) else ReadBytes(item)
  }

  function GetNodePath(node: TrieNode): Option<Nibbles>
    requires |node.decoded| > 0
  {
    match ReadBytes(node.decoded[0])
    case None => None
    case Some(b) => Some(ToNibbles(b))
  }

  function GetNodeValue(node: TrieNode): Option<Bytes> {
    if |node.decoded| == 0 then None else ReadBytes(node.decoded[|node.decoded| - 1])
  }

  /** Does this proof element answer to the id its parent (or the caller) gave? */
  predicate Identified(H: HashFn, encoded: Bytes, keyIndex: nat, id: Bytes) {
    if keyIndex == 0 || |encoded| >= 32 then Equal(H, H(encoded), id)
    else Equal(H, encoded, id)
  }

  /** What one loop iteration decides after identifying its node. */
  datatype Step =
    | Revert
    | Stop(index: nat, id: Bytes)
    | Descend(id: Bytes, increment: nat)

  function Visit(node: TrieNode, key: Nibbles, index: nat, id: Bytes): Step {
    if |node.decoded| == BRANCH_NODE_LENGTH then
      if index == |key| then Stop(index, id)
      else if index > |key| then Revert
      else
        match GetNodeID(node.decoded[key[index]])
        case None => Revert
        case Some(next) => Descend(next, 1)
    else if |node.decoded| == LEAF_OR_EXTENSION_NODE_LENGTH then
      match GetNodePath(node)
      case None => Revert
      case Some(path) =>
        if path == [] then Revert
        else
          var prefix := path[0];
          var pathRemainder := SliceFrom(path, 2 - prefix % 2);
          var keyRemainder := SliceFrom(key, index);
          var shared := SharedLength(pathRemainder, keyRemainder);
          if |keyRemainder| < |pathRemainder| then Revert
          else if prefix == PREFIX_LEAF_EVEN || prefix == PREFIX_LEAF_ODD then
            if |pathRemainder| == shared && |keyRemainder| == shared then Stop(index + shared, RLP_NULL)
            else Stop(index, RLP_NULL)
          else if prefix == PREFIX_EXTENSION_EVEN || prefix == PREFIX_EXTENSION_ODD then
            if shared != |pathRemainder| then Stop(index, RLP_NULL)
            else
              match GetNodeID(node.decoded[1])
              case None => Revert
              case Some(next) => Descend(next, shared)
          else Revert
    else Revert
  }

  /** Length of the path walked, rest of the key, and whether the walk hit a dead end. */
  datatype Walk = Walk(pathLength: nat, remainder: Nibbles, isFinal: bool)

  /** The walk over `proof[i..]`, with the loop's variables as parameters. */
  function WalkFrom(H: HashFn, proof: seq<TrieNode>, key: Nibbles, i: nat, id: Bytes, index: nat,
                    increment: nat): Option<Walk>
    requires i <= |proof|
    decreases |proof| - i
  {
    if i == |proof| then Some(Walk(i, SliceFrom(key, index), Equal(H, id, RLP_NULL)))
    else if !Identified(H, proof[i].encoded, index + increment, id) then None
    else
      match Visit(proof[i], key, index + increment, id)
      case Revert => None
      case Stop(end, last) => Some(Walk(i + 1, SliceFrom(key, end), Equal(H, last, RLP_NULL)))
      case Descend(next, inc) => WalkFrom(H, proof, key, i + 1, next, index + increment, inc)
  }

  /** The value that `get` reads off a finished walk. */
  function Finish(proof: seq<TrieNode>, walk: Option<Walk>): Option<Bytes>
    requires walk.Some? ==> walk.value.pathLength <= |proof|
  {
    match walk
    case None => None
    case Some(w) =>
      if w.remainder == [] then
        if w.pathLength == 0 then None else GetNodeValue(proof[w.pathLength - 1])
      else if w.isFinal then Some([])
      else None
  }

  /** `_parseProof`: every element must be a list the strict reader accepts. */
  function Parse(proof: seq<Bytes>): Option<seq<TrieNode>> {
    if forall i | 0 <= i < |proof| :: ListItems(proof[i]).Some? then
      Some(seq(|proof|, i requires 0 <= i < |proof| && ListItems(proof[i]).Some? =>
                 TrieNode(proof[i], ListItems(proof[i]).value)))
    else None
  }

  lemma WalkLength(H: HashFn, proof: seq<TrieNode>, key: Nibbles, i: nat, id: Bytes, index: nat, increment: nat)
    requires i <= |proof|
    ensures var w := WalkFrom(H, proof, key, i, id, index, increment);
            w.Some? ==> i <= w.value.pathLength <= |proof|
    decreases |proof| - i
  {
  }

  /** `get`: the value found (empty when absent), or a revert. */
  function Value(H: HashFn, key: Bytes, proof: seq<Bytes>, root: Word): Option<Bytes> {
    match Parse(proof)
    case None => None
    case Some(nodes) =>
      WalkLength(H, nodes, ToNibbles(key), 0, root, 0, 0);
      Finish(nodes, WalkFrom(H, nodes, ToNibbles(key), 0, root, 0, 0))
  }

  /** `verifyInclusionProof`: a revert, or whether the key is bound to this value. */
  function Verify(H: HashFn, key: Bytes, value: Bytes, proof: seq<Bytes>, root: Word): Option<bool> {
    match Value(H, key, proof, root)
    case None => None
    case Some(v) => Some(|v| > 0 && Equal(H, value, v))
  }

  // ---------- the loops ----------

  method ParseProof(proof: seq<Bytes>) returns (r: Option<seq<TrieNode>>)
    ensures r == Parse(proof)
  {
    var nodes: seq<TrieNode> := [];
    var i := 0;
    while i < |proof|
      invariant 0 <= i <= |proof|
      invariant |nodes| == i
      invariant forall k | 0 <= k < i :: Some(nodes[k].decoded) == ListItems(proof[k]) && nodes[k].encoded == proof[k]
    {
      var items := ReadList(proof[i]);
      if items.None? { return None; }
      nodes := nodes + [TrieNode(proof[i], items.value)];
      i := i + 1;
    }
    assert forall k | 0 <= k < |proof| :: ListItems(proof[k]) == Some(nodes[k].decoded);
    assert nodes == Parse(proof).value;
    r := Some(nodes);
  }

  method WalkNodePath(H: HashFn, proof: seq<TrieNode>, keyBytes: Bytes, root: Word) returns (r: Option<Walk>)
    ensures r == WalkFrom(H, proof, ToNibbles(keyBytes), 0, root, 0, 0)
  {
    var key := SplitNibbles(keyBytes);
    var pathLength := 0;
    var currentNodeID: Bytes := root;
    var currentKeyIndex, currentKeyIncrement := 0, 0;
    var i := 0;
    while i < |proof|
      invariant 0 <= i == pathLength <= |proof|
      invariant WalkFrom(H, proof, key, i, currentNodeID, currentKeyIndex, currentKeyIncrement)
                == WalkFrom(H, proof, key, 0, root, 0, 0)
    {
      var currentNode := proof[i];
      currentKeyIndex := currentKeyIndex + currentKeyIncrement;
      pathLength := pathLength + 1;
      if !Identified(H, currentNode.encoded, currentKeyIndex, currentNodeID) { return None; }
      match Visit(currentNode, key, currentKeyIndex, currentNodeID) {
        case Revert => return None;
        case Stop(end, last) =>
          currentKeyIndex, currentNodeID := end, last;
          break;
        case Descend(next, inc) =>
          currentNodeID, currentKeyIncrement := next, inc;
      }
      i := i + 1;
    }
    r := Some(Walk(pathLength, SliceFrom(key, currentKeyIndex), Equal(H, currentNodeID, RLP_NULL)));
  }

  method Get(H: HashFn, key: Bytes, proof: seq<Bytes>, root: Word) returns (r: Option<(bool, Bytes)>)
    ensures r == match Value(H, key, proof, root)
                 case None => None
                 case Some(v) => Some((v != [], v))
  {
    hide Parse, WalkFrom, ToNibbles, ReadBytes;
    var parsed := ParseProof(proof);
    if parsed.None? { return None; }
    var nodes := parsed.value;
    var walk := WalkNodePath(H, nodes, key, root);
    if walk.None? { return None; }
    WalkLength(H, nodes, ToNibbles(key), 0, root, 0, 0);
    var w := walk.value;
    var noRemainder := |w.remainder| == 0;
    if !(noRemainder || w.isFinal) { return None; }
    var value: Bytes := [];
    if noRemainder {
      if w.pathLength == 0 { return None; }
      var v := GetNodeValue(nodes[w.pathLength - 1]);
      if v.None? { return None; }
      value := v.value;
    }
    r := Some((|value| > 0, value));
  }
}
