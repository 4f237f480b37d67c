/** `SecureMerkleTrie` and the inclusion checks of the two portals: an account proof against a
    state root, then a storage proof against the storage root found in that account. */
module PortalProofs {
  import opened Wrappers
  import opened ByteStrings
  import opened Rlp
  import opened RlpReader
  import opened Trie
  import opened MerkleTrie
  import opened TrieProofs
  import opened LenientRlp

  const TRUE_VALUE: Bytes := [0x01]

  /** `SecureMerkleTrie.get`: keys are hashed, hence 32 bytes long. */
  function SecureValue(H: HashFn, key: Bytes, proof: seq<Bytes>, root: Word): Option<Bytes> {
    Value(H, H(key), proof, root)
  }

  function SecureVerify(H: HashFn, key: Bytes, value: Bytes, proof: seq<Bytes>, root: Word): Option<bool> {
    Verify(H, H(key), value, proof, root)
  }

  /** Memory that starts with `b` and goes on with `beyond`. */
  function Loaded(b: Bytes, beyond: Memory): Memory {
    (i: int) => if 0 <= i < |b| then b[i] else beyond(i)
  }

  /** `_verifyAccountInclusion`: the storage root of the account, or a revert. */
  function AccountStorageRoot(H: HashFn, account: Bytes, stateRoot: Word, proof: seq<Bytes>,
                              beyond: Memory): Option<Word> {
    match SecureValue(H, account, proof, stateRoot)
    case None => None
    case Some(encoded) => if encoded == [] then None else StorageRoot(Loaded(encoded, beyond), |encoded|)
  }

  /** Storage key of `mapping[hash]` for a mapping in slot 0. */
  function MappingKey(H: HashFn, hash: Word): Word {
    H(hash + ZEROS32)
  }

  /** What `finalizeWithdrawalTransaction` and `finalizeDepositTransaction` require of their proofs. */
  predicate ProofAccepted(H: HashFn, portal: Bytes, hash: Word, stateRoot: Word,
                          accountProof: seq<Bytes>, storageProof: seq<Bytes>, beyond: Memory) {
    match AccountStorageRoot(H, portal, stateRoot, accountProof, beyond)
    case None => false
    case Some(storageRoot) => SecureVerify(H, MappingKey(H, hash), TRUE_VALUE, storageProof, storageRoot) == Some(true)
  }

  /** The other chain's state: a trie of accounts in which `portal` has storage trie `storage`. */
  datatype World = World(accounts: Node, storage: Node, nonce: Bytes, balance: Bytes, codeHash: Word)

  ghost predicate ValidWorld(H: HashFn, w: World, portal: Bytes) {
    && WellFormed(H, w.accounts) && WellFormed(H, w.storage)
    && |w.nonce| <= 32 && |w.balance| <= 32
    && Lookup(w.accounts, ToNibbles(H(portal))) == EncodeAccount(w.nonce, w.balance, Root(H, w.storage), w.codeHash)
  }

  /** Is `mapping[hash]` set in the portal's storage? */
  predicate Recorded(H: HashFn, w: World, hash: Word) {
    Lookup(w.storage, ToNibbles(H(MappingKey(H, hash)))) == TRUE_VALUE
  }

  lemma {:induction false} LoadedHolds(b: Bytes, beyond: Memory)
    ensures Holds(Loaded(b, beyond), 0, b)
  {
  }

  lemma {:induction false} StorageRootOfWorld(H: HashFn, w: World, portal: Bytes, beyond: Memory)
    requires ValidWorld(H, w, portal)
    ensures var encoded := Lookup(w.accounts, ToNibbles(H(portal)));
            encoded != [] && StorageRoot(Loaded(encoded, beyond), |encoded|) == Some(Root(H, w.storage))
  {
    hide WellFormed, Lookup, StorageRoot, Root, Loaded;
    var encoded := Lookup(w.accounts, ToNibbles(H(portal)));
    LoadedHolds(encoded, beyond);
    StorageRootOfAccount(Loaded(encoded, beyond), w.nonce, w.balance, Root(H, w.storage), w.codeHash);
  }

  /** Proofs that pass both checks show that the hash is recorded in the committed state, unless
      they exhibit a collision. */
  lemma {:induction false} AcceptedIsRecorded(H: HashFn, w: World, portal: Bytes, hash: Word,
                                              accountProof: seq<Bytes>, storageProof: seq<Bytes>, beyond: Memory)
    requires ValidWorld(H, w, portal)
    requires CollisionFree(H, HashedStrings(H, w.accounts, accountProof))
    requires CollisionFree(H, HashedStrings(H, w.storage, storageProof))
    requires CollisionFree(H, {TRUE_VALUE, Lookup(w.storage, ToNibbles(H(MappingKey(H, hash))))})
    requires ProofAccepted(H, portal, hash, Root(H, w.accounts), accountProof, storageProof, beyond)
    ensures Recorded(H, w, hash)
  {
    hide WellFormed, Lookup, StorageRoot, Root, Value, Encodings, HashedStrings;
    GetSound(H, w.accounts, H(portal), accountProof);
    StorageRootOfWorld(H, w, portal, beyond);
    GetSound(H, w.storage, H(MappingKey(H, hash)), storageProof);
  }

  /** Conversely, the two honest proofs of a recorded hash pass both checks. */
  lemma {:induction false} RecordedIsAccepted(H: HashFn, w: World, portal: Bytes, hash: Word, beyond: Memory)
    requires ValidWorld(H, w, portal) && Recorded(H, w, hash)
    requires FixedLength(w.accounts, 64) && FixedLength(w.storage, 64)
    ensures ProofAccepted(H, portal, hash, Root(H, w.accounts),
                          HonestProof(H, w.accounts, ToNibbles(H(portal))),
                          HonestProof(H, w.storage, ToNibbles(H(MappingKey(H, hash)))), beyond)
  {
    hide WellFormed, Lookup, StorageRoot, Root, Value, HonestProof, EndsInside, FixedLength;
    StorageRootOfWorld(H, w, portal, beyond);
    LookupNonEmpty(w.accounts, ToNibbles(H(portal)));
    LookupNonEmpty(w.storage, ToNibbles(H(MappingKey(H, hash))));
    GetComplete(H, w.accounts, H(portal));
    FixedLengthNeverInside(H, w.accounts, ToNibbles(H(portal)));
    GetComplete(H, w.storage, H(MappingKey(H, hash)));
    FixedLengthNeverInside(H, w.storage, ToNibbles(H(MappingKey(H, hash))));
  }

  lemma {:induction false} LookupNonEmpty(n: Node, key: Nibbles)
    ensures Lookup(n, key) != [] ==> !n.Empty?
  {
  }
}
