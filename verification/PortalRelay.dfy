/** Why a portal may go by `Visible`: what it can be convinced of by Merkle proofs against a root is
    exactly what the state under that root has recorded as initiated. */
module PortalRelay {
  import opened Wrappers
  import opened ByteStrings
  import opened Trie
  import opened TrieProofs
  import PortalProofs
  import opened LenientRlp
  import opened Bridge

  /** The state `w` has exactly the messages of `initiated` marked in its portal's mapping. */
  ghost predicate Commits(H: HashFn, hashOf: Message -> Word, w: PortalProofs.World, initiated: set<Message>) {
    && (forall m | m in initiated :: PortalProofs.Recorded(H, w, hashOf(m)))
    && (forall hash: Word | PortalProofs.Recorded(H, w, hash) :: exists m :: m in initiated && hashOf(m) == hash)
  }

  /** Proofs that the portal accepts for a message show that the other side initiated it. */
  lemma {:induction false} ProvedIsVisible(H: HashFn, hashOf: Message -> Word, w: PortalProofs.World, portal: Bytes,
                                           initiated: set<Message>, m: Message, accountProof: seq<Bytes>,
                                           storageProof: seq<Bytes>, beyond: Memory)
    requires PortalProofs.ValidWorld(H, w, portal) && Commits(H, hashOf, w, initiated)
    requires CollisionFree(H, HashedStrings(H, w.accounts, accountProof))
    requires CollisionFree(H, HashedStrings(H, w.storage, storageProof))
    requires CollisionFree(H, {PortalProofs.TRUE_VALUE,
                               Lookup(w.storage, ToNibbles(H(PortalProofs.MappingKey(H, hashOf(m)))))})
    requires forall other | other in initiated && hashOf(other) == hashOf(m) :: other == m
    requires PortalProofs.ProofAccepted(H, portal, hashOf(m), Root(H, w.accounts), accountProof, storageProof, beyond)
    ensures m in initiated
  {
    hide PortalProofs.ValidWorld, PortalProofs.Recorded, PortalProofs.ProofAccepted;
    PortalProofs.AcceptedIsRecorded(H, w, portal, hashOf(m), accountProof, storageProof, beyond);
  }

  /** And every initiated message has proofs that the portal accepts. */
  lemma {:induction false} VisibleIsProvable(H: HashFn, hashOf: Message -> Word, w: PortalProofs.World, portal: Bytes,
                                             initiated: set<Message>, m: Message, beyond: Memory)
    requires PortalProofs.ValidWorld(H, w, portal) && Commits(H, hashOf, w, initiated)
    requires FixedLength(w.accounts, 64) && FixedLength(w.storage, 64)
    requires m in initiated
    ensures exists accountProof, storageProof ::
              PortalProofs.ProofAccepted(H, portal, hashOf(m), Root(H, w.accounts), accountProof, storageProof, beyond)
  {
    hide PortalProofs.ValidWorld, PortalProofs.Recorded, PortalProofs.ProofAccepted, FixedLength;
    PortalProofs.RecordedIsAccepted(H, w, portal, hashOf(m), beyond);
  }
}
