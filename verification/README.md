# Specular: a verified model of the rollup protocol

Specular is an optimistic rollup. This project models the parts of it that hold value or decide disputes, in Dafny, and
proves what they promise over every input and every run:

- **Proofs of inclusion** (`ByteStrings`, `Rlp`, `LenientRlp`, `Trie`, `MerkleTrie`, `TrieProofs`, `PortalProofs`): the strict
  and the lenient RLP reader, the Merkle-Patricia proof verifier and the two-stage proof check of the portals. RLP,
  hex-prefix paths and tries are defined independently after Appendices B, C and D of the Ethereum Yellow Paper, and the
  verifier is shown to agree with plain lookup in the trie.
- **Rollup** (`Rollup`, `RollupTree`, `RollupResolution`, `RollupChain`, `RollupFunds`, `RollupStanding`,
  `RollupSound`, `RollupRecords`, `RollupClaims`, `RollupAnswers`, `RollupFindings`, `RollupContract`):
  stakes, the assertion tree, confirmation and rejection, challenges and their payouts.
- **Challenge game** (`Challenge`, `ChallengeClocks`): agreement on a length, bisection, turns and chess clocks.
- **Bridge** (`Bridge`, `BridgeProofs`, `BridgeAnswers`, `BridgeContract`, `PortalRelay`): portals, standard bridges, mintable tokens and the
  L1 oracle as one machine over both chains.
- **Batches** (`Batch`, `BatchProofs`, `BatchAnswers`, `BatchBuilder`): the batch builder's queue and the V0 encoder.
- **Fees** (`TxFees`): fee bumping of resubmitted transactions.
- **Genesis storage** (`Storage`, `StorageProofs`): packing values into slots.

Contracts and Go objects appear twice: as transition functions on values, about which the theorems over whole runs are
stated, and as classes (`RollupContract`, `ChallengeContract`, `BridgeContract`, `BatchBuilder`) whose methods update fields
in place and are proved to do what the transition functions say. The rollup contract, a challenge, the pair of chains and the
batch builder are `Valid()` from their constructors on: what is proved of every step holds of the objects between calls, and decides when calls
that pay out or relay succeed, how far a challenge can go and what a batch holds. A run is a sequence of arbitrary calls by arbitrary
senders in arbitrary order; a call that reverts changes nothing. `None` is a revert, or an error return in Go.

`dafny verify dfyconfig.toml` checks the whole project.

## How the model reads the source

- Hashing is a function with 32-byte results of which nothing is assumed in general. Where the code relies on collision
  resistance, the theorem assumes that there is no collision among the finitely many strings that the call hashes
  (`CollisionFree`). The commitment of a challenge and the hash of a cross-domain message are modelled by what is hashed.
- `Rollup.sol` lines 578-582 test and set `blockNum` of the parent where `IRollup.sol` documents `childBlockNum`. The
  model has both readings (`AsWritten`, `AsDocumented`); the theorems hold for either, and `AsWrittenAtMostOne` shows what
  the code as written amounts to.
- `postInitialization` in `SymChallenge.sol` is documented to demand an initialised challenge but reverts on one. Again
  both readings are there; `AsWrittenNeverBisects` shows what the code as written amounts to, and the results about
  bisection concern the documented one where they say that a move is accepted.
- `Bytes.equal` compares digests, and so does the model.
- In `batch_v0_encoder.go` the test for an empty sub-batch in `closeSubBatch` never fires, since the size of an empty list is
  1; empty sub-batches do get closed, and the model follows the code. The comment in `GetBatch` says that a sub-batch is closed
  if it fits; the code closes it if it does not.
- `processBlock` in `batch_builder.go` dereferences the recipient of a block's first transaction, which a contract creation
  lacks. The model counts that crash as a failure.
- `MergeStorage` calls its result order deterministic; its input comes from iterating a map, so only the slots are,
  not their order. A value of a dynamic array type is silently dropped.

## Where the code falls short of a property

- Two things have no proof at all: any key in the empty trie, although every key is absent from it, and a key that runs out
  inside the path of a leaf or extension. `get` then reverts on every proof (`NoProofAccepted`, `EmptyTrieHasNoProof`,
  `ShortKeyReverts`); in all other cases the honest proof is accepted (`GetComplete`). With hashed keys only the empty trie
  is left (`FixedLengthProvable`).
- Rejecting a child of the last confirmed assertion can strand a live staker once a slashed address stakes again
  (`RestakeStrands` is such a run). It is safe exactly when the zombie count is exact (`RejectExact`), which holds if no
  slashed address stakes again. And an assertion whose zombie count is inexact can never be confirmed any more
  (`InexactNeverConfirmed`).
- A rejected assertion's parent reads as 0, so a staker on assertion 0 can advance onto it (`StepOntoRejected` has the exact
  condition) and is trapped there (`RejectedTrap`). Without that and without restaking, nobody is ever stranded
  (`NobodyStranded`).
- A player on the last confirmed assertion can leave in the middle of a challenge; the challenge then never pays out and the
  other player is held in it (`LeaverEndsChallenge`, `LeaverHoldsOpponent`).
- A player made to challenge itself strands half of its stake in the contract (`SelfChallengeStrands`). `Solvent` accounts
  for exactly that.
- A player can pass with a one-step proof that does not win, exactly if the committed segment has at most three steps
  (`PassExact`). In front of true states that is exactly what costs the honest player its footing (`FootingExact`,
  `PassLosesFooting`); it can pass back (`StallAnswered`), and with passes allowed it is still never stuck
  (`SteadyInvariant`, `SteadyNeverStuck`).
- With `blockNum` as written no assertion is ever created if the initial one has a block number, and one otherwise
  (`AsWrittenExact`).
- A block that fails to encode can leave the blocks before it both encoded and queued (`FailureDuplicates`);
  `EncodePendingExact` tells from the queue and the sizes when.
- A full encoder stays full until it is reset, and `Advance` does not reset it (`FullUntilReset`). Of two batches built
  without a reset between them the second starts with all of the first (`BatchesExtend`), so blocks are given out twice
  (`AdvanceRepeats`).
- A bump need not be one: a tip below 10 that is not below the suggestion stays as it is, and the transaction is no
  replacement (`SmallTipNotReplaced`). `TipRises`, `FeeCapRises` and `BumpBounds` have the exact conditions.
- The order of merged slots depends on map iteration (`ResultOrderVaries`), unless all values live in one slot
  (`OrderFixedExact`); the slots do not (`OrderIrrelevant`).

## Model

| member | source | states |
|---|---|---|
| `ByteStrings.SplitNibbles` | contracts/src/libraries/Bytes.sol:108-123 | the array filled in place is the high and low nibble of every byte, in order |
| `ByteStrings.CountSharedNibbles` | contracts/src/libraries/trie/MerkleTrie.sol:282-291 | the loop returns the length of the longest common prefix, as `SharedLength` specifies it |
| `RlpReader.DecodedIsCanonical` | contracts/src/libraries/rlp/RLPReader2.sol:168-275 | every header the reader accepts is the one canonical header for the payload it announces |
| `RlpReader.ReadBytesExact` | contracts/src/libraries/rlp/RLPReader2.sol:127-135 | `readBytes` returns s if and only if its input is the RLP encoding of s: both are inverse to each other and everything else reverts |
| `RlpReader.ReadList` | contracts/src/libraries/rlp/RLPReader2.sol:70-106 | the loop accepts, and returns the items, exactly as the recursive splitting of the payload does |
| `RlpReader.ReadListExact` | contracts/src/libraries/rlp/RLPReader2.sol:70-106 | `readList` returns a list of items if and only if its input encodes the list of these items, at most 32 and each one framed; the raw items tile the payload |
| `LenientRlp.NumItems` | contracts/src/libraries/rlp/RLPReader.sol:271-283 | the loop over memory counts the items met until the end of the payload, whatever memory holds |
| `LenientRlp.ToList` | contracts/src/libraries/rlp/RLPReader.sol:116-131 | the loop over memory returns exactly these items, or reverts on a non-list |
| `LenientRlp.ReadersAgree` | contracts/src/libraries/rlp/RLPReader.sol:116-131 | on every input that the strict reader accepts, and whatever surrounds it in memory, the lenient reader yields the same items |
| `LenientRlp.StorageRootOfAccount` | contracts/src/libraries/Encoding.sol:35-41 | the storage root read from any canonical account encoding is its third field |
| `LenientRlp.StorageRootExact` | contracts/src/libraries/Encoding.sol:35-41 | of any strictly valid list the last 32 bytes of the third item are read if it has 33 bytes, else the call reverts; and a strictly valid string or an empty input is refused |
| `Trie.HexPrefixNibbles` | contracts/src/libraries/trie/MerkleTrie.sol:259-261 | unpacking a hex-prefix encoded path gives its flag nibble, the padding and the path |
| `MerkleTrie.ParseProof` | contracts/src/libraries/trie/MerkleTrie.sol:228-238 | the loop parses all elements or reverts if the strict reader rejects one |
| `MerkleTrie.WalkNodePath` | contracts/src/libraries/trie/MerkleTrie.sol:119-218 | the loop, with its early exits, computes the recursive walk from the root |
| `MerkleTrie.Get` | contracts/src/libraries/trie/MerkleTrie.sol:94-105 | existence and value are those of the specification `Value`, about which soundness and completeness are proved |
| `TrieProofs.IdOfItem` | contracts/src/libraries/trie/MerkleTrie.sol:248-250 | an item of less than 32 bytes is a node id by itself, a longer one must encode a string, which is the id |
| `TrieProofs.VisitNode` | contracts/src/libraries/trie/MerkleTrie.sol:150-213 | on the encoding of any trie node the loop body decides what the node itself says: stop, dead end, or descend into the right child |
| `TrieProofs.GetSound` | contracts/src/libraries/trie/MerkleTrie.sol:94-218 | for every well-formed trie, key and proof whatsoever: `get` reverts or returns exactly what the trie binds to the key, present or absent, unless the proof exhibits a hash collision |
| `TrieProofs.InclusionSound` | contracts/src/libraries/trie/MerkleTrie.sol:75-82 | an inclusion proof that does not revert says exactly whether the trie binds the key to this non-empty value, barring collisions |
| `TrieProofs.GetComplete` | contracts/src/libraries/trie/MerkleTrie.sol:94-218 | the list of nodes on the key's path is accepted, with the right answer, if and only if the trie is not empty and the key does not run out inside the path of a leaf or extension |
| `TrieProofs.NoProofAccepted` | contracts/src/libraries/trie/MerkleTrie.sol:94-218 | where that condition fails, `get` reverts on every proof whatsoever, barring hash collisions |
| `TrieProofs.EmptyTrieHasNoProof` | contracts/src/libraries/trie/MerkleTrie.sol:94-218 | nothing can be shown absent from the empty trie, by any proof |
| `TrieProofs.ShortKeyReverts` | contracts/src/libraries/trie/MerkleTrie.sol:180-183 | a concrete trie and absent key whose honest proof is refused |
| `TrieProofs.FixedLengthNeverInside` | contracts/src/libraries/trie/SecureMerkleTrie.sol:26-59 | in a trie of fixed-length keys no key of that length runs out inside a path |
| `TrieProofs.FixedLengthProvable` | contracts/src/libraries/trie/SecureMerkleTrie.sol:26-59 | so for hashed keys exactly the non-empty tries have accepted proofs |
| `PortalProofs.AcceptedIsRecorded` | contracts/src/bridge/L1Portal.sol:275-307 | proofs that pass the account check and the storage check show that the hash is recorded in the state under the root, barring collisions |
| `PortalProofs.RecordedIsAccepted` | contracts/src/bridge/L2Portal.sol:215-247 | conversely the two honest proofs of a recorded hash always pass |
| `PortalRelay.ProvedIsVisible` | contracts/src/bridge/L1Portal.sol:157-178 | a message whose proofs the portal accepts is one that the state under the root has initiated |
| `PortalRelay.VisibleIsProvable` | contracts/src/bridge/L2Portal.sol:150-205 | every initiated message has proofs that the portal accepts |
| `RollupTree.StepTree` | contracts/src/Rollup.sol:347-547 | every call keeps the staker count of each unresolved assertion equal to those who stand, or fell, on it or below it |
| `RollupResolution.ZombieOvercount` | contracts/src/Rollup.sol:651-659 | the zombie count can only over-count, and is exact if and only if every flagged zombie fell on the assertion or below it |
| `RollupResolution.ConfirmExact` | contracts/src/Rollup.sol:200-223 | the staker count test passes if and only if every live staker stands on the assertion or below it and the zombie count is exact |
| `RollupResolution.ConfirmSafe` | contracts/src/Rollup.sol:200-223 | in every run, slashed addresses staking again or not: when an assertion can be confirmed every live staker has staked on it and none is on or below an unresolved sibling |
| `RollupResolution.RejectExact` | contracts/src/Rollup.sol:226-272 | when the staker count test of rejection passes, no live staker is on the assertion if and only if the zombie count is exact |
| `RollupResolution.RejectWitness` | contracts/src/Rollup.sol:226-272 | in every run: the staker named in a rejection sits on neither an ancestor nor a descendant of the rejected assertion |
| `RollupResolution.RejectSafe` | contracts/src/Rollup.sol:512-518 | in every run in which no slashed address stakes again, rejecting a child of the last confirmed assertion strands no live staker |
| `RollupStanding.OnConfirmed` | contracts/src/Rollup.sol:361-394 | in every run no staker is behind the last confirmed assertion, so the tests of `unstake` and `removeStake` mean being on it |
| `RollupStanding.RejectStrands` | contracts/src/Rollup.sol:226-272 | among stakers rooted in the last confirmed assertion, a rejection of either kind strands nobody if and only if the zombie count of a rejected child of it is exact |
| `RollupStanding.NobodyStranded` | contracts/src/Rollup.sol:512-518 | in every run without restaking after a slash and without a step onto a resolved assertion, every staker reaches the last confirmed assertion through unresolved ones and no rejection of either kind strands anybody |
| `RollupStanding.StepOntoRejected` | contracts/src/Rollup.sol:397-407 | in every run a staker can advance onto a rejected assertion if and only if it is on assertion 0, which takes an initial assertion 0 and no confirmation so far |
| `RollupFindings.RestakeStrands` | contracts/src/Rollup.sol:521-547 | a concrete run in which a slashed address stakes again and rejection then becomes possible while a live staker is on the assertion |
| `RollupFindings.InexactNeverConfirmed` | contracts/src/Rollup.sol:200-223 | in every run, once the zombie count of an unresolved assertion is inexact, no continuation ever confirms that assertion |
| `RollupFindings.SelfChallengeStrands` | contracts/src/Rollup.sol:446-499 | a concrete run in which a player is made to challenge itself and 5 units of its stake leave what the contract owes |
| `RollupFindings.LeaverEndsChallenge` | contracts/src/Rollup.sol:378-394 | in every run, once a player in a challenge has removed its stake, that challenge never pays out and the other player cannot be challenged again until it leaves too |
| `RollupFindings.LeaverHoldsOpponent` | contracts/src/Rollup.sol:378-394 | a concrete run in which a player leaves its challenge |
| `RollupFindings.RejectedTrap` | contracts/src/Rollup.sol:397-407 | a concrete run in which a staker advances onto a rejected assertion, cannot leave and keeps its sibling from being confirmed |
| `RollupFindings.AsWrittenAtMostOne` | contracts/src/Rollup.sol:568-596 | with lines 578-582 as written, in every run at most one assertion is created, and none if the initial one has a block number |
| `RollupFindings.AsWrittenExact` | contracts/src/Rollup.sol:418-443 | with lines 578-582 as written, some run creates an assertion if and only if the initial block number is 0 |
| `RollupChain.ConfirmedChain` | contracts/src/Rollup.sol:502-509 | in every run the confirmed assertions form one parent-linked chain from the initial one to the last confirmed one, with no two confirmed siblings |
| `RollupChain.PortalExact` | contracts/src/bridge/L1Portal.sol:253-265 | in every run the portal's test accepts exactly the initial and confirmed assertions with a non-zero state hash, and never a rejected one |
| `RollupRecords.StandsAsProposed` | contracts/src/Rollup.sol:568-596 | in every run, from the call that creates an assertion on and unless it is rejected, its record is the creator's position, the proposed state hash and block, and a deadline and proposal time counted from that call |
| `RollupRecords.ResolvedInTime` | contracts/src/Rollup.sol:200-272 | in every run at least the confirmation period lies between the call that creates an assertion and the call that confirms it, or rejects it as a child of the last confirmed one; and what is confirmed is what was proposed |
| `RollupRecords.FamiliesInOrder` | contracts/src/Rollup.sol:418-443 | in every run, on the documented reading, a child comes at least the minimum period after its parent and proposes a later block, and siblings propose the same block with different state hashes |
| `RollupRecords.CreateExact` | contracts/src/Rollup.sol:418-443 | on the documented reading an assertion is accepted if and only if its creator is staked, the period is over, the block is later than the parent's, and it is the first child or a new result for the same block |
| `RollupFunds.StepConserves` | contracts/src/Rollup.sol:347-547 | every call changes the balance and the sum of stakes and withdrawable funds alike, up to what a self-challenge strands |
| `RollupFunds.Solvent` | contracts/src/Rollup.sol:347-415 | in every run the balance equals all stakes plus all withdrawable funds plus what self-challenges stranded |
| `RollupFunds.AlwaysCollateralized` | contracts/src/Rollup.sol:361-375 | in every run every staker holds at least the base stake, so the subtraction in `unstake` never underflows |
| `RollupFunds.PaysOnce` | contracts/src/Rollup.sol:521-547 | in every run a challenge pays out at most once |
| `RollupClaims.CompleteClaims` | contracts/src/Rollup.sol:521-547 | the end of a challenge lowers the loser's claim by exactly the smaller stake, raises the winner's by half of it and the vault's by the rest, and leaves all others alone |
| `RollupClaims.StepClaims` | contracts/src/Rollup.sol:347-547 | every call changes every address's claim by exactly what it gave, got paid, won and lost |
| `RollupClaims.BooksBalance` | contracts/src/Rollup.sol:347-547 | in every run, for every address, what it gave and won is what it got paid, lost and still owns |
| `RollupClaims.StepMoves` | contracts/src/Rollup.sol:347-443 | a staker enters on the last confirmed assertion, moves only by its own calls and only to a child, and leaves by removing its stake or losing a challenge |
| `RollupSound.StepSound` | contracts/src/Rollup.sol:347-547 | every call keeps all of it together: the counted tree, the confirmed chain, nobody behind it, covered base stakes, enrolled challenges and a balance that covers all debts |
| `RollupSound.WithdrawExact` | contracts/src/Rollup.sol:410-415 | in a sound state a withdrawal fails only if the recipient refuses it |
| `RollupSound.RemoveStakeExact` | contracts/src/Rollup.sol:378-394 | in a sound state a stake can be removed if and only if it is on the last confirmed assertion and accepted: neither balance nor counter underflows |
| `RollupSound.UnstakeExact` | contracts/src/Rollup.sol:361-375 | in a sound state any part beyond the base stake can be taken out of the last confirmed assertion, and nothing else |
| `RollupSound.CompleteExact` | contracts/src/Rollup.sol:521-547 | in a sound state a result is accepted if and only if the caller is the current challenge of both players |
| `RollupSound.ConfirmMeans` | contracts/src/Rollup.sol:200-223 | in a sound state whatever can be confirmed is what every staker has staked on and stands on |
| `RollupAnswers.ConfirmAnswer` | contracts/src/Rollup.sol:200-223 | in a sound state confirmation is possible if and only if there is an unresolved assertion, its period is over, it is a child of the last confirmed one, somebody is staked, all stakers are on it or below it, and its zombie count is exact |
| `RollupAnswers.RejectAnswer` | contracts/src/Rollup.sol:226-272 | in a sound state the exact condition of rejection, in terms of who stands and who fell where |
| `RollupAnswers.AdvanceAnswer` | contracts/src/Rollup.sol:397-407 | a stake moves if and only if it moves to an existing later child of its assertion, and is then counted there |
| `RollupAnswers.ChallengeAnswer` | contracts/src/Rollup.sol:446-499 | in a sound state a challenge starts if and only if it names two siblings later than the last confirmed assertion, hence not confirmed, and two unchallenged stakers, who are then in it and nobody else |
| `RollupAnswers.BaseStakeAnswer` | contracts/src/Rollup.sol:311-317 | the base stake can be lowered, and not raised, if and only if nothing is unresolved |
| `RollupContract.Contract.constructor` | contracts/src/Rollup.sol:103-147 | the initial storage, with the initial assertion confirmed; the contract is valid |
| `RollupContract.Contract.Stake` | contracts/src/Rollup.sol:347-358 | in place: keeps the contract valid; accepted if and only if staked already or the value reaches the base stake; else without effect |
| `RollupContract.Contract.Unstake` | contracts/src/Rollup.sol:361-375 | in place: keeps the contract valid; succeeds if and only if the stake is on the last confirmed assertion, the base stake remains and the transfer is accepted |
| `RollupContract.Contract.RemoveStake` | contracts/src/Rollup.sol:378-394 | in place: keeps the contract valid; succeeds if and only if the stake is on the last confirmed assertion and the transfer is accepted |
| `RollupContract.Contract.AdvanceStake` | contracts/src/Rollup.sol:397-407 | in place: keeps the contract valid; reverts without effect or moves the stake to a child |
| `RollupContract.Contract.Withdraw` | contracts/src/Rollup.sol:410-415 | in place: keeps the contract valid; succeeds if and only if the transfer is accepted |
| `RollupContract.Contract.SetBaseStakeAmount` | contracts/src/Rollup.sol:311-317 | in place: keeps the contract valid; the base stake may only go down |
| `RollupContract.Contract.StakeOnAssertion` | contracts/src/Rollup.sol:558-563 | moves the staker, raises the count and flags the address |
| `RollupContract.Contract.CreateAssertionHelper` | contracts/src/Rollup.sol:568-596 | the new assertion and the parent's record of its children, under either reading |
| `RollupContract.Contract.CreateAssertion` | contracts/src/Rollup.sol:418-443 | in place: keeps the contract valid; reverts without effect or creates the assertion and moves its creator there |
| `RollupContract.Contract.ChallengeAssertion` | contracts/src/Rollup.sol:446-499 | in place: keeps the contract valid if the challenge contract is new; reverts without effect or enrols both players |
| `RollupContract.Contract.CountStakedZombies` | contracts/src/Rollup.sol:651-659 | the loop counts the zombies whose address is flagged on the assertion |
| `RollupContract.Contract.ConfirmFirstUnresolvedAssertion` | contracts/src/Rollup.sol:502-509 | in place: keeps the contract valid; confirms only what every staker has staked on and stands on |
| `RollupContract.Contract.RejectFirstUnresolvedAssertion` | contracts/src/Rollup.sol:512-518 | in place: keeps the contract valid; the named staker is neither above nor below a rejected child of the last confirmed assertion |
| `RollupContract.Contract.SettleStakes` | contracts/src/Rollup.sol:528-540 | in place: the loser's excess over the winner's stake is refunded; half of the rest goes to the winner and half to the vault, as `CompleteClaims` states for the whole call |
| `RollupContract.Contract.CompleteChallenge` | contracts/src/Rollup.sol:521-547 | in place: keeps the contract valid if a challenge reports its own players; accepted if and only if the caller is the current challenge of both |
| `RollupContract.Contract.IsAssertionConfirmed` | contracts/src/bridge/L1Portal.sol:253-265 | on a valid contract the test is true of exactly the confirmed assertions with a non-zero state hash |
| `ChallengeProofs.SegmentsTile` | contracts/src/challenge/ChallengeLib.sol:60-69 | the sub-segments tile the parent segment and differ by at most one step |
| `ChallengeProofs.CutNarrows` | contracts/src/challenge/SymChallenge.sol:145-191 | an accepted bisection must quote what was committed and commits to a sub-segment of it, strictly shorter after the first round, that agrees at its start and differs at its end |
| `ChallengeProofs.BisectionsLogarithmic` | contracts/src/challenge/SymChallenge.sol:164-190 | in every play, k accepted bisections need more than 2^(k-1) steps |
| `ChallengeProofs.SegmentInside` | contracts/src/challenge/SymChallenge.sol:164-190 | in every play the committed segment stays inside [0, numSteps] |
| `ChallengeProofs.AgreementStarts` | contracts/src/challenge/SymChallenge.sol:105-143 | agreeing on a length commits to the whole execution, with the end state of the right player |
| `ChallengeProofs.ClockConservation` | contracts/src/challenge/ChallengeBase.sol:51-80 | in every play both clocks plus the last move's block sum to a constant; past that block no move is accepted and timeout is enabled |
| `ChallengeClocks.FairStart` | contracts/src/challenge/SymChallenge.sol:72-102 | a challenge between two proper addresses starts with the defender's move, full clocks and nothing agreed |
| `ChallengeClocks.ProposeExact` | contracts/src/challenge/SymChallenge.sol:105-143 | when a proposal of a length is accepted, whose clock it costs, which length is settled, who is next and what is committed |
| `ChallengeClocks.CutExact` | contracts/src/challenge/SymChallenge.sol:145-191 | a bisection is accepted if and only if the player on turn makes it in time, quotes the commitment, and offers three states that agree at the start of a part of more than one step and differ at its end |
| `ChallengeClocks.ProveExact` | contracts/src/challenge/SymChallenge.sol:195-231 | a one-step proof is accepted if and only if it is in time, quotes the commitment, at most three steps are left and the other contracts' checks pass; it wins if and only if the verifier arrives at another state than the committed one |
| `ChallengeClocks.TrueStepWins` | contracts/src/challenge/SymChallenge.sol:195-231 | a single step that starts true and is claimed to end false is won if the verifier computes true states |
| `ChallengeClocks.MoverCharged` | contracts/src/challenge/ChallengeBase.sol:51-69 | an accepted move is made by the player on turn while its clock runs; that clock alone is charged, and the turn passes |
| `ChallengeClocks.ClockPerPlayer` | contracts/src/challenge/ChallengeBase.sol:51-69 | in every play, for each player, what is left on its clock is what it started with minus the time spent on its own turns |
| `ChallengeClocks.TimeoutFair` | contracts/src/challenge/ChallengeBase.sol:71-80 | in every play somebody wins by timeout if and only if it is the opponent of the player on turn, who has spent more than its whole clock on its own turns |
| `ChallengeClocks.PunctualNeverTimedOut` | contracts/src/challenge/ChallengeBase.sol:71-80 | in every play a player who stays within its clock on its own turns is never timed out |
| `ChallengeProofs.HonestMove` | contracts/src/challenge/SymChallenge.sol:145-231 | facing a segment that starts true and ends false, the honest player has an index and a true bisection that the contract accepts, or is down to a single step, where its one-step proof is accepted exactly if the inclusion, context and proof checks of the other contracts pass |
| `ChallengeProofs.OpponentReply` | contracts/src/challenge/SymChallenge.sol:145-191 | whatever bisection is accepted against true states, from the agreed length on, starts true and ends false again, at the start and length that the contract computed |
| `ChallengeProofs.HonestInvariant` | contracts/src/challenge/SymChallenge.sol:145-191 | in every sequence of bisections and rejected calls in which one player is honest and the other arbitrary, whoever moves first, the honest player keeps that footing |
| `ChallengeProofs.HonestFromAgreement` | contracts/src/challenge/SymChallenge.sol:105-143 | the footing is there as soon as the length is agreed, whichever player is honest and whoever is to bisect first |
| `ChallengeProofs.HonestNeverStuck` | contracts/src/challenge/SymChallenge.sol:145-231 | in every such play, at its turn and in time, the honest player has an accepted bisection, or a single step left whose proof is accepted exactly if it passes the checks of the other contracts |
| `ChallengeProofs.PassExact` | contracts/src/challenge/SymChallenge.sol:195-231 | the player on turn can pass with some one-step proof if and only if the committed segment has at most three steps |
| `ChallengeProofs.FootingExact` | contracts/src/challenge/SymChallenge.sol:145-231 | against true states an accepted move of the opponent keeps the honest player's footing if and only if it is a bisection |
| `ChallengeProofs.PassLosesFooting` | contracts/src/challenge/SymChallenge.sol:195-231 | a concrete one-step game in which a pass costs the honest player its footing |
| `ChallengeProofs.StallAnswered` | contracts/src/challenge/SymChallenge.sol:195-231 | after a one-step proof that does not win, the player facing its own true states can only get false bisections accepted, but can pass the same way and restore the situation |
| `ChallengeProofs.SteadyInvariant` | contracts/src/challenge/SymChallenge.sol:145-231 | in every play, passes and rejected calls included, of an honest player who bisects disputes by its strategy and otherwise passes: committed states are true at the opponent's turn, and disputable or true and short at its own |
| `ChallengeProofs.SteadyNeverStuck` | contracts/src/challenge/SymChallenge.sol:145-231 | in every such play, at its turn and in time, the honest player faces a dispute or can pass |
| `ChallengeProofs.AsWrittenNeverBisects` | contracts/src/challenge/SymChallenge.sol:53-58 | with the guard as written no bisection is ever accepted |
| `ChallengeContract.SymChallenge.constructor` | contracts/src/challenge/SymChallenge.sol:72-102 | the initial storage of a challenge, which is valid |
| `ChallengeContract.SymChallenge.InitializeChallengeLength` | contracts/src/challenge/SymChallenge.sol:105-143 | in place: keeps the challenge valid, with an agreed length that is positive and at most the proposed one; reverts without effect or reaches the specified state |
| `ChallengeContract.SymChallenge.FinishTurn` | contracts/src/challenge/ChallengeBase.sol:51-69 | the clock of the player who moved is charged and the turn passes |
| `ChallengeContract.SymChallenge.BisectExecution` | contracts/src/challenge/SymChallenge.sol:145-191 | in place: keeps the challenge valid; an accepted bisection lies within the quoted segment, comes before the final block and does not move it; else without effect |
| `ChallengeContract.SymChallenge.VerifyOneStepProof` | contracts/src/challenge/SymChallenge.sol:195-231 | in place: keeps the challenge valid, the commitment and the final block; reverts without effect, also when another contract's check fails, or ends the turn; and who wins given what the verifier computes |
| `ChallengeContract.SymChallenge.TimeOut` | contracts/src/challenge/ChallengeBase.sol:71-80 | there is a winner if and only if the clock of the player on turn has run out, and it is the other player; past the final block of an agreed challenge there always is one |
| `BridgeProofs.AliasBijective` | contracts/src/vendor/AddressAliasHelper.sol:28-42 | applying and undoing the alias are inverse, wrap-around included |
| `BridgeProofs.OtherBridgeExact` | contracts/src/bridge/L2StandardBridge.sol:22-30 | `onlyOtherBridge` lets a relayed sender through if and only if it is the other chain's standard bridge |
| `BridgeProofs.IdentityUnforgeable` | contracts/src/bridge/L1Portal.sol:213-245 | no direct portal call is recorded under the identity of a standard bridge |
| `BridgeProofs.FinalizedWasInitiated` | contracts/src/bridge/L2Portal.sol:150-205 | in every run a message is finalised on a chain only if it was initiated on the other |
| `BridgeProofs.FinalizedOnce` | contracts/src/bridge/L1Portal.sol:130-204 | in every run no two steps finalise the same message on the same chain |
| `BridgeProofs.EthConserved` | contracts/src/bridge/L1Portal.sol:130-245 | in every run the portals' balances sum to initial funding plus donations plus the value of all messages in flight |
| `BridgeProofs.TokensConserved` | contracts/src/bridge/StandardBridge.sol:108-124 | in every run, for every native token and its mintable twin, in either direction: the escrow equals the twin's supply plus all amounts in flight both ways |
| `BridgeProofs.ReleaseCovered` | contracts/src/bridge/StandardBridge.sol:108-124 | in every run a bridge message in flight is covered by the escrow, so its release never underflows |
| `BridgeProofs.ReleaseSucceeds` | contracts/src/bridge/StandardBridge.sol:108-124 | in every run such a message, once visible, is accepted as soon as the token transfer succeeds |
| `BridgeProofs.MintSucceeds` | contracts/src/bridge/StandardBridge.sol:108-124 | in every run a token message to the twin's chain, once visible, is accepted and mints the amount it announces |
| `BridgeProofs.EthDelivered` | contracts/src/bridge/StandardBridge.sol:91-105 | in every run an ETH message between the bridges, once visible, is accepted if and only if the portal holds the amount and the recipient is neither bridge nor portal |
| `BridgeProofs.StepSound` | contracts/src/bridge/StandardBridge.sol:91-124 | every step keeps it all together: messages, what bridges announce, backing of every token pair, and ETH |
| `BridgeAnswers.DepositsAreHoldings` | contracts/src/bridge/L1StandardBridge.sol:65-100 | in every run, for every native pair, the deposits counter is all tokens successfully transferred in minus all successfully transferred out |
| `BridgeAnswers.SupplyIsMinted` | contracts/src/bridge/mintable/MintableERC20.sol:56-67 | in every run the supply of a mintable token of this bridge is all that was minted minus all that was burned |
| `BridgeAnswers.BridgeAnswer` | contracts/src/bridge/L2StandardBridge.sol:62-97 | tokens are bridged if and only if the transfer, or a burn by the token's own bridge of no more than there is, succeeds |
| `BridgeAnswers.FinalizeAnswer` | contracts/src/bridge/L1Portal.sol:130-204 | a message is finalised if and only if it is visible, not finalised, not for the portal itself, covered by the balance, the called code succeeds and the standard bridge, if called, takes it |
| `BridgeAnswers.NeverFinalized` | contracts/src/bridge/L2Portal.sol:150-205 | no step finalises a message to the portal itself, one whose call fails, or one that asks the standard bridge for tokens or ETH and is not from its counterpart |
| `BridgeAnswers.NoncesCount` | contracts/src/bridge/L2Portal.sol:123-147 | in every run no two messages of a chain share a nonce and none is skipped |
| `BridgeAnswers.StepHistory` | contracts/src/bridge/L1Oracle.sol:74-85 | history grows by what is initiated at the end of a block, and the oracle moves to any later past block and never back |
| `BridgeAnswers.BecomesVisible` | contracts/src/bridge/L1Oracle.sol:74-85 | from every reachable state, what L2 initiated is visible on L1 after the next L2 block, and what L1 initiated is visible on L2 once the oracle reports the block after next |
| `BridgeContract.Endpoint.Send` | contracts/src/bridge/L2Portal.sol:123-147 | in place: nonce, initiated messages and balance after recording a message |
| `BridgeContract.Endpoint.Initiate` | contracts/src/bridge/L1Portal.sol:213-245 | in place: the message recorded under the next nonce and the (aliased) sender, its value kept |
| `BridgeContract.Endpoint.Finalize` | contracts/src/bridge/L1Portal.sol:130-204 | in place: reverts without effect or relays as specified, with the cross-domain sender set during the call and reset after it |
| `BridgeContract.Endpoint.CallBridge` | contracts/src/bridge/StandardBridge.sol:91-124 | the bridge's entry points, authorised by the portal's cross-domain sender alone |
| `BridgeContract.Endpoint.FinalizeBridgeERC20` | contracts/src/bridge/StandardBridge.sol:108-124 | in place: mints the twin or releases escrow, or reverts without effect |
| `BridgeContract.Endpoint.BridgeETH` | contracts/src/bridge/L1StandardBridge.sol:48-62 | in place: sends the value with a message to the other bridge |
| `BridgeContract.Endpoint.BridgeERC20` | contracts/src/bridge/L2StandardBridge.sol:62-97 | in place: burns the twin or escrows, then sends a message with the tokens reversed |
| `BridgeContract.Endpoint.Mint` | contracts/src/bridge/mintable/MintableERC20.sol:56-59 | in place: only the token's bridge mints, raising the supply by the amount |
| `BridgeContract.Endpoint.Burn` | contracts/src/bridge/mintable/MintableERC20.sol:64-67 | in place: only the token's bridge burns, and no more than there is |
| `BridgeContract.L1Oracle.SetL1OracleValues` | contracts/src/bridge/L1Oracle.sol:74-85 | in place: a strictly newer block replaces all five values, anything else is refused without effect |
| `BridgeContract.TwoChains.constructor` | contracts/src/bridge/L1Portal.sol:89-100 | both sides freshly deployed are valid |
| `BridgeContract.TwoChains.Initiate` | contracts/src/bridge/L1Portal.sol:213-245 | in place: any caller but the bridge itself and an account at its alias keeps messages, ETH and tokens of both chains accounted for |
| `BridgeContract.TwoChains.BridgeETH` | contracts/src/bridge/L1StandardBridge.sol:48-62 | in place: keeps both chains accounted for |
| `BridgeContract.TwoChains.BridgeERC20` | contracts/src/bridge/L1StandardBridge.sol:65-100 | in place: reverts without effect or escrows or burns; keeps both chains accounted for |
| `BridgeContract.TwoChains.Finalize` | contracts/src/bridge/L2Portal.sol:150-205 | in place, with whatever proofs: only what the other chain initiated gets through, once; properly proved messages from the other bridge get through whenever they are due and unseen code succeeds; keeps both chains accounted for |
| `BridgeContract.TwoChains.SetL1OracleValues` | contracts/src/bridge/L1Oracle.sol:74-85 | in place: the values of a past L1 block keep both chains accounted for |
| `BatchProofs.SizesAreEncodings` | services/sidecar/rollup/derivation/batch_v0_encoder.go:119-126 | the size functions are the lengths of actual RLP encodings |
| `BatchProofs.NothingLost` | services/sidecar/rollup/derivation/batch_builder.go:59-158 | in every run whose blocks accepted since the last reset are readable, the sub-batches followed by the queue are exactly the non-empty ones of them, in order; if these are consecutive, counting up from `firstL2BlockNum` recovers every number |
| `BatchProofs.BuiltIsPrefix` | services/sidecar/rollup/derivation/batch_builder.go:80-110 | in every such run a built batch holds a prefix of these blocks, and building never fails |
| `BatchAnswers.OracleCallExact` | services/sidecar/rollup/derivation/batch_builder.go:138-158 | which epoch is read of a block, and exactly which blocks cannot be read or marshalled |
| `BatchAnswers.GoodQueue` | services/sidecar/rollup/derivation/batch_builder.go:114-158 | how many good blocks one call takes, and the sizes and the timeout afterwards, told from the sizes and epochs of the blocks |
| `BatchAnswers.BuildAnswer` | services/sidecar/rollup/derivation/batch_builder.go:80-110 | a cached batch is given out again, an empty queue gives nothing, and a good queue gives a batch if and only if the timeout is set and reached or the sizes reach the target |
| `BatchAnswers.GivenOutWhenDue` | services/sidecar/rollup/derivation/batch_v0_encoder.go:31-52 | the same in every run whose accepted blocks are readable |
| `BatchAnswers.BuildContents` | services/sidecar/rollup/derivation/batch_v0_encoder.go:31-52 | the batch has version 0 and is all that is closed: with the open sub-batch and the queue it is exactly the accepted non-empty blocks, and the open one is closed too if it exceeds the target |
| `BatchAnswers.TimeoutIsLeast` | services/sidecar/rollup/derivation/batch_builder.go:160-168 | the timeout is the least of what was set before and what the epochs seen ask for, unless 64-bit arithmetic wraps or gives 0 |
| `BatchAnswers.NeverForcedWithoutCalls` | services/sidecar/rollup/derivation/batch_builder.go:96-110 | in every run without oracle calls the timeout stays unset, so nothing is forced |
| `BatchAnswers.EnqueueAnswer` | services/sidecar/rollup/derivation/batch_builder.go:59-75 | in every run the accepted blocks are a chain, and a further block is accepted if and only if it is a child of the last one, or of the block of the last reset, or there is nothing to link to |
| `BatchProofs.EncodePendingExact` | services/sidecar/rollup/derivation/batch_builder.go:114-135 | for any builder and queue, one call loses nothing and, if the first bad block of the queue is reached before the batch is full, told by sizes, duplicates exactly the blocks before it; so contents change if and only if it fails behind a non-empty block |
| `BatchProofs.FailsExactly` | services/sidecar/rollup/derivation/batch_builder.go:114-158 | a call fails if and only if the sizes of the blocks before the first bad one leave room to reach it, and has then taken exactly those blocks |
| `BatchProofs.FailureDuplicates` | services/sidecar/rollup/derivation/batch_builder.go:114-135 | a concrete run in which a failing block makes its predecessor appear twice |
| `BatchProofs.SoftCap` | services/sidecar/rollup/derivation/batch_v0_encoder.go:56-135 | in every run, failures included, `runningLen` is the summed list size of the closed sub-batches and the content of all is at most the target plus the last block's contribution |
| `BatchProofs.ContentMeasured` | services/sidecar/rollup/derivation/batch_v0_encoder.go:121-148 | in every such run each content size is the size of the first number plus all transaction bytes held |
| `BatchProofs.StepFollowed` | services/sidecar/rollup/derivation/batch_builder.go:59-158 | every call keeps it together: capped sizes, batches made of closed sub-batches, and nothing lost or miscounted as long as the accepted blocks are readable |
| `BatchProofs.ClosedGrows` | services/sidecar/rollup/derivation/batch_v0_encoder.go:99-108 | without a reset closed sub-batches are never changed or dropped |
| `BatchProofs.BatchesExtend` | services/sidecar/rollup/derivation/batch_builder.go:80-110 | in every run, of two batches built without a reset between them the second starts with all of the first, so they share no block if and only if the first holds none |
| `BatchProofs.AdvanceRepeats` | services/sidecar/rollup/derivation/batch_builder.go:91-93 | a concrete run in which building, advancing and building again gives out a block twice |
| `BatchProofs.ResetSeparates` | services/sidecar/rollup/derivation/batch_builder.go:70-75 | batches built from disjoint sets of accepted blocks, as on the two sides of a reset, share no block |
| `BatchProofs.FullUntilReset` | services/sidecar/rollup/derivation/batch_v0_encoder.go:56-96 | once full, no call but a reset makes the builder take another block |
| `BatchProofs.TimeoutSetOnce` | services/sidecar/rollup/derivation/batch_builder.go:160-168 | in every run, resets included, a timeout set by an epoch never changes as long as no queued or later enqueued block brings an earlier epoch and 64-bit arithmetic does not wrap |
| `BatchBuilder.MarshalAll` | services/sidecar/rollup/derivation/batch_v0_encoder.go:137-148 | the loop marshals all transactions or fails, and counts their bytes |
| `BatchBuilder.V0Encoder.ProcessBlock` | services/sidecar/rollup/derivation/batch_v0_encoder.go:56-84 | in place: the outcome and the new sub-batches are those specified |
| `BatchBuilder.V0Encoder.AppendTxBlock` | services/sidecar/rollup/derivation/batch_v0_encoder.go:121-135 | in place: also what a marshalling failure leaves behind |
| `BatchBuilder.V0Encoder.CloseSubBatch` | services/sidecar/rollup/derivation/batch_v0_encoder.go:99-108 | in place: the open sub-batch is closed, its list size added, a new one opened |
| `BatchBuilder.V0Encoder.ShouldCloseBatch` | services/sidecar/rollup/derivation/batch_v0_encoder.go:93-96 | whether the batch with the open sub-batch exceeds the target |
| `BatchBuilder.V0Encoder.Reset` | services/sidecar/rollup/derivation/batch_v0_encoder.go:86-89 | in place: back to one empty open sub-batch |
| `BatchBuilder.V0Encoder.GetBatch` | services/sidecar/rollup/derivation/batch_v0_encoder.go:31-52 | in place: too small, or all closed sub-batches |
| `BatchBuilder.BatchBuilder.Enqueue` | services/sidecar/rollup/derivation/batch_builder.go:59-67 | in place: keeps the builder valid; accepted if and only if nothing was enqueued before or the parent matches |
| `BatchBuilder.BatchBuilder.Reset` | services/sidecar/rollup/derivation/batch_builder.go:70-75 | in place: everything but the timeout is cleared |
| `BatchBuilder.BatchBuilder.Advance` | services/sidecar/rollup/derivation/batch_builder.go:91-93 | in place: only the cached batch is cleared |
| `BatchBuilder.BatchBuilder.UpdateTimeout` | services/sidecar/rollup/derivation/batch_builder.go:162-168 | in place, in 64-bit arithmetic |
| `BatchBuilder.BatchBuilder.ProcessBlock` | services/sidecar/rollup/derivation/batch_builder.go:138-158 | in place: timeout and encoder change as specified, failures included |
| `BatchBuilder.BatchBuilder.EncodePending` | services/sidecar/rollup/derivation/batch_builder.go:114-135 | the loop does what processing the blocks one by one does, and moves the queue only if no block failed |
| `BatchBuilder.BatchBuilder.Build` | services/sidecar/rollup/derivation/batch_builder.go:80-110 | in place: keeps the builder valid; as long as accepted blocks are readable it does not fail, and a batch holds a prefix of the non-empty ones, under their own numbers if consecutive |
| `TxFees.IncreaseGasPrice` | services/sidecar/rollup/rpc/eth/txmgr/tx_mgr.go:405-435 | the tip is the larger of 110 percent and the suggestion, at most 5 times the suggestion; the fee cap is recomputed around a tip kept above the suggestion, else the larger of 110 percent and the suggestion, at most 5 times the suggested tip plus 10 times the base fee |
| `TxFees.FeeNumbers` | services/sidecar/rollup/rpc/eth/txmgr/tx_mgr.go:490-537 | 10 percent more rounded down, a fee cap of the tip plus twice the base fee, caps of five times the suggestion |
| `TxFees.ResubmissionIdle` | services/sidecar/rollup/rpc/eth/txmgr/tx_mgr.go:156-160 | the first transaction has the suggested fees, and a tick without a new transaction keeps them |
| `TxFees.BumpBounds` | services/sidecar/rollup/rpc/eth/txmgr/tx_mgr.go:502-526 | never below the suggestion nor above the cap, each fee at least 110 percent of its predecessor rounded down or pinned at its cap; and a replacement, with both fees strictly higher, if and only if the old fees and the suggestion allow one |
| `TxFees.TipRises` | services/sidecar/rollup/rpc/eth/txmgr/tx_mgr.go:400-435 | the tip rises if and only if it is below its cap and at least 10 or below the suggestion |
| `TxFees.FeeCapRises` | services/sidecar/rollup/rpc/eth/txmgr/tx_mgr.go:400-435 | the exact condition for the fee cap, including its recomputation around a tip kept above the suggestion |
| `TxFees.SmallTipNotReplaced` | services/sidecar/rollup/rpc/eth/txmgr/tx_mgr.go:400-435 | concrete fees within their caps whose bump is no replacement |
| `TxFees.FeeCapCoversTip` | services/sidecar/rollup/rpc/eth/txmgr/tx_mgr.go:405-435 | after any history of suggestions the fee cap is at least the tip, as EIP-1559 requires |
| `TxFees.ResubmissionSound` | services/sidecar/rollup/rpc/eth/txmgr/tx_mgr.go:405-435 | all these bounds hold for every attempt after any history of suggestions and failed attempts |
| `TxFees.NeverDecrease` | services/sidecar/rollup/rpc/eth/txmgr/tx_mgr.go:405-435 | under a fixed suggestion, fees within their caps never decrease and never leave them |
| `TxFees.NeverDecreaseAfterFirst` | services/sidecar/rollup/rpc/eth/txmgr/tx_mgr.go:405-435 | the same from the first attempt on, whatever the fees were before |
| `TxFees.TipReachesCap` | services/sidecar/rollup/rpc/eth/txmgr/tx_mgr.go:490-494 | a fixed tip suggestion t of 10 or more drives the tip to its cap within 4t + 1 attempts |
| `TxFees.TipEverRises` | services/sidecar/rollup/rpc/eth/txmgr/tx_mgr.go:490-494 | over any number of attempts under a fixed suggestion a tip within its cap rises if and only if it is below the cap and at least 10 or below the suggestion, and never falls |
| `Storage.MergeStorage` | ops/state/state.go:105-124 | one result per key, in order of first occurrence, holding the or of everything stored under the key |
| `Storage.ComputeStorageSlots` | ops/state/state.go:68-99 | for any iteration order: fails if and only if some label cannot be encoded, else the merged slots of all labels, in the order in which they first occur |
| `Storage.FindLast` | ops/state/state.go:72-77 | the entry with the label after which no other has it, and none only if no entry has it |
| `StorageProofs.CollectAnswer` | ops/state/encoding.go:32-78 | in any order the values are encoded if and only if each label's last entry has a known type of at most a word that takes the value, full words and short strings at offset 0 only |
| `StorageProofs.OffsetMovesBytes` | ops/state/encoding.go:471-478 | shifting the number moves the bytes left, fills with zeros and loses what is shifted out |
| `StorageProofs.OrderIrrelevant` | ops/state/state.go:68-124 | neither success nor the resulting slots depend on the order in which the map is iterated |
| `StorageProofs.ResultOrderVaries` | ops/state/state.go:105-124 | a concrete layout for which two iteration orders return the same slots in different orders |
| `StorageProofs.OrderFixedExact` | ops/state/state.go:105-124 | the order of the returned slots is the same for all iteration orders if and only if all labels that yield anything live in one slot |
| `StorageProofs.FieldReadsBack` | ops/state/state.go:68-124 | for every layout without overlap and all fitting values, each field reads back as its value from its slot, offset and width |
| `StorageProofs.UnusedBytesZero` | ops/state/encoding.go:32-78 | every byte of a merged slot that belongs to no field is zero |
| `StorageProofs.StringsRoundTrip` | ops/state/encoding.go:253-278 | strings of up to 31 bytes round-trip and longer ones are refused |

## Left out

- Keccak internals: collisions are excluded only where a theorem says so, for the strings involved.
- Access control, validator roles, pausing, upgrades, gas, events and the internals of SafeCall: easy or outside the protocol logic; whether unseen code succeeds is a free parameter of every step.
- Reentrant calls from targets and tokens: their effects appear as later steps of a run, since the portals' sender guard forbids nested finalisation.
- Overflow of 256-bit amounts, nonces and counters, and of 64-bit batch sizes: amounts are unbounded; only the timeout of the batch builder is computed in 64 bits.
- Setters of periods and of the data availability provider in `Rollup.sol`: they only change constants of a run.
- The outcome of a one-step proof: the verifier is a placeholder in the source, so its result is a parameter and nothing is claimed about who wins by it.
- Clock claims before the length of a challenge is agreed: until then any caller moves the last-move block.
- What the block hash, timestamp and base fee of the L1 oracle are used for: only the block number and the state it commits to matter to the bridge.
- That assertion hashes and oracle roots commit to actual past states: this is what the challenge game and the oracle's operator are for, and the bridge model takes it as given.
- Balances of individual token holders: only escrow and total supply enter the bridge theorems; a failing transfer or burn is a free parameter.
- Fees taken, or supply changed, by plain tokens behind the bridge's back: a plain token is assumed to move the amount asked for.
- `SequencerInbox`, `AsymChallenge`, the faucet and the factory: vacuous, unfinished or easy.
- The reflective RLP encoding of batches and its decoder: a batch is the list of its sub-batches; only list and integer sizes are modelled.
- BatchProofs.BuiltIsPrefix: speaks of the sub-batches that a batch is made of, not of its RLP bytes, whose reflective encoding lives in a library outside the repository.
- BatchBuilder.BatchBuilder.ProcessBlock: a first transaction without recipient crashes the process in Go and is an ordinary failure here, because the model has no process to crash.
- Mapping-typed storage, and values given as text that must be parsed: they would need hashing and number parsing and add no packing.
- Negative Go integers as storage values: they wrap to 64 bits before encoding.
- Timers, goroutines, gas estimation and signing in the transaction manager: a tick that yields no new transaction keeps the old one.
- RPC clients, brokers, configuration, bindings and deployment scripts: plumbing.
