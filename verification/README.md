# roots: a model of the mesh node's protocols

`roots` is a node of an overlay mesh. Each node has a key; nodes peer over links, agree on a
spanning tree, route greedily on tree coordinates, find each other by bloom-guided lookups on a
lossy transform of the key, and talk end to end in ratcheting sessions. This project models the
parts of the node that are protocols, codecs and state machines, and proves what they are for.

Run `dafny verify dfyconfig.toml` in this directory.

## How it is built

| part | modules |
|---|---|
| sessions (`src/session.rs`) | `Sessions` (the state, its operations and the `Session` class), `SessionRuns` (one side, any run), `SessionWorld` (two sides, a hostile network), `SessionSecrets` (no shared secret there), `SessionProgress` (what gets done there), `SessionInOrder` (two sides, lossy but in order) |
| spanning tree and routing (`src/tree.rs`, `src/pathfind.rs`, `src/views.rs`, `src/driver.rs`) | `ParentWalks`, `SpanningTree`, `GreedyRouting`, `TreeDelivery`, `WireDelivery` (hops over the wire), `SettledChain` |
| lookups (`src/pathfind.rs`, `src/driver.rs`) | `Pathfinding` (learned paths and rumours), `PathRuns` (any run) |
| bloom multicast (`src/bloom.rs`) | `BloomHash`, `FlaggedWords`, `BloomFilters`, `BloomTables`, `BloomReach`, `BloomUpkeep`, `BloomGossip` (runs until rest), `SettledExample` |
| addresses (`src/address.rs`) | `Bits`, `Addresses` |
| local discovery (`src/multicast.rs`, `src/link.rs`) | `Announcing`, `AnnounceRuns`, `QueryText`, `PeerUris` |
| the wire (`src/frame.rs`, `src/traffic.rs`) | `Frames`, `TrafficCodec`, `LookupCodec` |

State that the node updates in place is a class (`Session`, `TreeState`, `PeerBook`, `BloomState`,
`PathState`, `Multicast`); each of its methods is proved against a function on values, and the
theorems are about those functions. Loops over values are methods with invariants, proved against
recursive definitions.

Ideals: key pairs are numbers drawn fresh, a DH secret is the unordered pair of two keys, a box
opens only under its own secret and nonce, signatures are true or false, the membership hash is
injective. Clock readings, random numbers and drawn keys are parameters. In the tree, bloom and
announce modules node keys and interface names are numbers, of which only the order matters.

Where a promise of the source fails, the model keeps what the code does, and the exact condition
is proved:

- A message sealed while the send nonce wraps carries nonce 0 and is refused by every session
  (`SessionInOrder.OpensIffNotWrapping`, `WrapMessageNeverOpens`). In-order delivery therefore
  assumes that nobody wraps.
- A list of ports is refused on the wire beyond 128 hops and cut short at a zero port, so greedy
  delivery and lookups fail on deeper trees (`WireDelivery.Delivers`, `DeepDestinationIsLost`,
  `BloomReach.LookupReaches`, `AddressLookupFindsOwner`).
- A node without an entry of its own can close a cycle when it switches parents
  (`SpanningTree.SwitchWithoutOwnInfoCanClose`, `SwitchWithoutOwnInfoIff`, `UnnamedClosesNoCycle`).
- Two announces of equal rank that differ are never reconciled, and are answered for ever
  (`SpanningTree.ExchangeReconciles`, `EqualRankNeverSettles`).
- Listing a bound interface twice loses its listener (`AnnounceRuns.DoubleListingBreaksIff`).
- A port reported for an interface that is known and not yet bound is beaconed for the listener
  bound after it (`AnnounceRuns.EarlyReportBreaksIff`).
- A broken path is not repaired by a newer notify that names the same path
  (`PathRuns.RepairedIff`).
- A password that is not UTF-8 is printed into a URI and read back as no password
  (`PeerUris.BrokenPasswordIsLost`, `ByteFFIsLost`, `ListenUriRoundTrips`).

Where code and comments disagree, the code is followed. The comment on `query_escape` says the
parser takes values raw, but `parse_link_uri` unescapes them; the comment in `query_unescape` says
invalid UTF-8 cannot occur there, but `%FF` produces it; the comment on `encode_frame_to` speaks of
a short write, but the function returns an error and writes nothing.

## Model

| member | source | states |
|---|---|---|
| Sessions.Session.constructor | src/session.rs:522-550 | a session opened by an init starts at key sequence 0 with the three drawn pairs, the four shared secrets of `fix_shared` and a sequence number one below the init's, and owns the key sequence [send, next] |
| Sessions.Session.FixSharedSecrets | src/session.rs:509-519 | all four secrets are the DH pairs of the peer's current and next key with our receive and send keys, and the four nonces are reset as given |
| Sessions.Session.AdoptBufferedKeys | src/session.rs:553-565 | an initiator's buffered pairs replace send and next, and the session owns exactly those |
| Sessions.Session.ShiftKeys | src/session.rs:585-603 | the two swaps move send to receive and next to send, put the fresh pair at next and append it to the key sequence |
| Sessions.Session.Update | src/session.rs:585-603 | taking the peer's keys shifts ours, keeps the send nonce, and keeps receive, send and next at three consecutive places of the key sequence |
| Sessions.Session.OnInit | src/session.rs:569-575 | an init is taken exactly when its number is above the last one, and only then answered, with our keys after the shift |
| Sessions.Session.OnAck | src/session.rs:578-583 | the same for an ack, without an answer |
| Sessions.Session.Seal | src/session.rs:616-639 | the message names the key sequences and the nonce its box is sealed under; a nonce that wraps shifts the keys first |
| Sessions.Session.Rotate | src/session.rs:724-745 | at most once a minute the peer's next key becomes current, the key inside the box its next, and our keys shift |
| Sessions.Session.Unseal | src/session.rs:643-722 | one of three slots is chosen by the two labels; outside them, at or below the slot's nonce, or when the box does not open, nothing changes |
| SessionRuns.OpeningsBegin | src/session.rs:522-565 | both ways to open a session give a state from which the run theorems hold |
| SessionRuns.StateAfterKeeps | src/session.rs:569-745 | every operation keeps the session on its append-only key sequence and never goes back in (key position, nonce) order |
| SessionRuns.RunKeepsInv | src/session.rs:569-745 | over every run the records of key uses, accepted messages and accepted inits stay ordered |
| SessionRuns.SendNonceNeverReused | src/session.rs:585-639 | over every run, with nonce wraps, rotations and updates that keep the nonce, no two seals use one private key with one nonce |
| SessionRuns.AcceptanceRaisesSlot | src/session.rs:643-722 | an accepted message lies above its slot's nonce, and unless keys changed the slot then holds its nonce |
| SessionRuns.NothingAcceptedTwice | src/session.rs:569-722 | between two key changes each slot accepts strictly increasing nonces, and no init or ack is accepted twice |
| SessionRuns.RedeliveryRefused | src/session.rs:643-745 | a message just accepted, in any slot and whether or not it rotated the keys, is refused on redelivery and changes nothing |
| SessionWorld.FirstInitOk | src/session.rs:282-395 | the new-session path, with or without a buffered outbound session, leaves both sides' keys and messages consistent |
| SessionWorld.SlotHoldsSecret | src/session.rs:643-722 | whichever slot the labels of a genuine message select holds the DH pair it was sealed under |
| SessionWorld.NodeStepOk | src/session.rs:282-480 | every action of a node, with inits delivered as acks and the reverse, keeps its key sequence append-only and all it ever sent genuine |
| SessionWorld.RunKeepsInv | src/session.rs:282-480 | over every interleaving, with loss, duplication and reordering, both nodes' sessions agree with both key sequences |
| SessionWorld.LabelsNameTheKey | src/session.rs:643-722 | label and key agreement: over every run, a genuine message opens to its own payload exactly when its labels select a slot and its nonce is above the slot's; a wrong key is never the reason for a refusal |
| SessionSecrets.StepMoves | src/session.rs:282-480 | every action of a node leaves its session in its place or moves it to a position of its key sequence that nothing of the peer names yet, and sends at most one message, labelled with the place reached |
| SessionSecrets.MoveKeeps | src/session.rs:282-480 | such a move never makes two messages of opposite directions carry each other's labels swapped |
| SessionSecrets.RunKeepsApart | src/session.rs:282-480 | over every run labels stay unswapped and all keys ever published stay different |
| SessionSecrets.DirectionsNeverShareASecret | src/session.rs:282-745 | over every run from two idle nodes, with any inits, acks and re-inits, nonce wraps, loss, duplication and reordering, no message of one direction is ever sealed under a DH pair that a message of the other direction used |
| SessionProgress.AckTakenIff | src/session.rs:578-603 | an ack moves the session to the positions it names, its own ratchet on by one and its receive nonces to zero if and only if it is newer, and otherwise changes nothing |
| SessionProgress.InitTakenIff | src/session.rs:569-575 | an init does the same and is then answered with our keys after the move |
| SessionProgress.OpensInWindow | src/session.rs:643-722 | over every run a genuine message opens to its payload exactly when its labels are one of the three pairs of the window and its nonce is above that pair's floor |
| SessionProgress.RotatesIff | src/session.rs:724-745 | a message opened from the peer's next key moves both key sequences on by one, with the key in the box as the peer's next, if and only if no rotation happened in the last 60 seconds; otherwise no key changes |
| SessionProgress.WrapsIff | src/session.rs:616-639 | a wrapping nonce moves the local keys on before its message is sealed with nonce 0; any other is one above the last under the same keys |
| SessionProgress.AckIsTaken | src/session.rs:326-345 | over every run, delivering a newer ack of the peer leaves the receiver at the ack's positions of the peer's key sequence, one step further on its own |
| SessionProgress.Recovers | src/session.rs:282-395 | from every state of every run: when one of two open sessions refuses a message of the other, its init and the ack to it, both newer, leave the next message in either direction to open if and only if its sender is not about to wrap |
| SessionProgress.LastPayloadWaits | src/session.rs:443-480 | without a session the last payload submitted waits behind the first one's keys and init |
| SessionProgress.FirstPayloadArrives | src/session.rs:282-480 | first contact: after one init and the ack to it, whatever its type byte, the payload that waited is sent and opens |
| SessionInOrder.DecryptOutcome | src/session.rs:643-745 | what opening a message for the current or the next slot does to the labels and nonces the receiver expects |
| SessionInOrder.ReceivedKeepsLane | src/session.rs:643-745 | the messages still in flight behind one that was received stay acceptable, rotation or not |
| SessionInOrder.ReceivedKeepsOtherLane | src/session.rs:643-745 | so do the messages in flight the other way |
| SessionInOrder.UpdateKeepsLanes | src/session.rs:585-603 | the initiator's answering ack keeps both lanes acceptable |
| SessionInOrder.AckMovesLabels | src/session.rs:578-603 | after the initiator's ack is delivered the responder's next message carries the ack's key sequence as its receiver label |
| SessionInOrder.EveryArrivalOpens | src/session.rs:569-745 | after init, ack and answering ack, over channels that lose but do not reorder, every message that arrives opens to exactly its payload, whatever the rotation timer reads, as long as nobody wraps the nonce |
| SessionInOrder.OpensIffNotWrapping | src/session.rs:616-722 | in every state that a run without a wrap reaches, in both directions and whatever is in flight, a message sealed now and delivered next opens if and only if its sender was not about to wrap its nonce |
| SessionInOrder.WrapMessageNeverOpens | src/session.rs:616-639 | the message of a wrap is refused by every session in every state |
| ParentWalks.RootPathFor | src/pathfind.rs:239-256 | the loop ends on every info map, cyclic or partial, and gives the ports from the root exactly when the parent walk ends at a self-parented node |
| ParentWalks.RootAndDists | src/tree.rs:442-461 | the loop ends, and gives the last node of the walk and each met node's place in it |
| ParentWalks.Ancestry | src/tree.rs:590-607 | the loop ends, and gives the walk reversed, root first |
| ParentWalks.RootAndDepth | src/views.rs:15-29 | the loop ends, and gives root and depth exactly for rooted walks of depth at most 1024 |
| ParentWalks.WalksAgree | src/pathfind.rs:239-256 | the four walks agree: a path means a self-parented root at distance its length, a duplicate-free ancestry from the root to the node with one more entry, and the same root and depth up to depth 1024; no path means no root in any of them |
| ParentWalks.WalkDistinct | src/tree.rs:590-607 | a walk never meets a node twice |
| ParentWalks.WalkLinked | src/tree.rs:442-461 | each node of a walk is the parent of the one before |
| ParentWalks.WalkStops | src/tree.rs:442-461 | a walk goes on until its next node is unknown or already met |
| ParentWalks.CoordsStep | src/pathfind.rs:239-256 | a node's coordinates are its parent's with its own port appended |
| ParentWalks.RootedWalkStable | src/pathfind.rs:239-256 | learning more infos does not change the walk of a node that already had a root |
| SpanningTree.MergeAllTakesBest | src/tree.rs:351-387 | any sequence of announces leaves each key at an info that was offered for it and that nothing offered beats in sequence number, lower parent, lower nonce |
| SpanningTree.MergeAllIsLatest | src/tree.rs:351-387 | in so many words: the highest sequence number offered, with it the lowest parent, with both the lowest nonce |
| SpanningTree.MergeIsOrderFree | src/tree.rs:351-387 | two sequences with the same announces, in any order and with any repetition, leave the same map when rank determines the announce |
| SpanningTree.ExchangeReconciles | src/tree.rs:648-679 | one announce and at most one answer leave two nodes with the same, best info and nothing more to say, if and only if equal rank means equal announce |
| SpanningTree.EqualRankNeverSettles | src/tree.rs:648-679 | two announces of equal rank that differ are answered for ever: after any number of deliveries an answer is under way and neither side has changed |
| SpanningTree.PortsAloneNeverSettle | src/tree.rs:648-679 | a concrete pair: two infos that differ in their port alone |
| SpanningTree.ConsiderAllSound | src/tree.rs:463-540 | over all candidates, the choice is ourselves, the live parent or a candidate whose walk avoids us, and no eligible root is lower |
| SpanningTree.ParentIsKept | src/tree.rs:463-540 | without a refresh, a live parent whose root is below us stays unless some candidate's root is strictly lower |
| SpanningTree.JoinsCheapest | src/tree.rs:421-540 | a node without a parent chooses the least root and, among the candidates for it, a parent of least path cost: the cost on record is the chosen parent's, and no candidate for that root costs less |
| SpanningTree.MinCostIsLeast | src/tree.rs:421-428 | a key costs just what its cheapest live link does, and the maximum without one |
| SpanningTree.PathCostIs | src/tree.rs:474-502 | the cost of a path is depth times link cost, up to the highest number |
| SpanningTree.RefreshLeavesIff | src/tree.rs:463-540 | on a refresh a live parent at the lowest root is left for another path to that root if and only if one costs less than half |
| SpanningTree.JoinsLowerRoot | src/tree.rs:463-554 | whatever the flags, when a usable response offers a root below our key and our live parent's root, after the pass our root is at most that one |
| SpanningTree.ActsIff | src/tree.rs:463-540 | with no flag set, a node in its place acts if and only if a lower root is offered; otherwise the pass changes nothing |
| SpanningTree.RootsItselfIff | src/tree.rs:529-568 | with the second root flag set and no usable response, the pass makes the node its own root if and only if its sequence number is not the highest there is |
| SpanningTree.SwitchIsAcyclicAndMinimal | src/tree.rs:463-554 | when a node with its own info changes parent, the new parent's chain never reaches it, its new chain is itself above that chain, and the new root is below its key, its live parent's root and every eligible candidate's root |
| SpanningTree.SwitchWithoutOwnInfoCanClose | src/tree.rs:463-554 | a concrete table without an own info where `fix` closes a two-node cycle |
| SpanningTree.SwitchWithoutOwnInfoIff | src/tree.rs:463-554 | on the table before the pass: without an own info, `fix` closes a cycle if and only if it chooses a parent that answered with a port and whose walk ends at a node that names us as its parent |
| SpanningTree.UnnamedClosesNoCycle | src/tree.rs:463-554 | no cycle closes while no entry names us as parent |
| SpanningTree.TreeState.Update | src/tree.rs:351-387 | an announce is adopted exactly when it beats what is held, and an adopted one is marked unsent for every peer |
| SpanningTree.TreeState.HandleAnnounce | src/tree.rs:648-679 | the table is merged, an adopted info is unsent for everybody but its sender, who is marked as knowing the key, a refresh is due when our own entry changed, and a better info is sent back exactly when one is held |
| SpanningTree.TreeState.SelectParent | src/tree.rs:463-540 | the loop over the sorted responses computes the choice whose meaning the lemmas above give |
| SpanningTree.TreeState.UseResponse | src/tree.rs:541-554 | a response without a port, or not fresher than what is held, changes nothing; any other becomes our info, unsent for everybody |
| SpanningTree.TreeState.BecomeRoot | src/tree.rs:555-568 | a self-rooted info with the next sequence number is merged like any announce, and is unsent for everybody if it was adopted |
| SpanningTree.TreeState.FixParent | src/tree.rs:463-540 | one pass is the transition that the switch theorems are about, with its flags and responses |
| GreedyRouting.CommonLenIs | src/pathfind.rs:263-270 | the common length is the length of the longest shared prefix |
| GreedyRouting.DistZero | src/pathfind.rs:263-270 | the tree distance is zero exactly between equal coordinates |
| GreedyRouting.TowardIsCloser | src/pathfind.rs:263-270 | the child in the destination's direction, or else the parent, is exactly one closer |
| GreedyRouting.GreedyNext | src/pathfind.rs:280-345 | the two passes compute the greedy choice and the new watermark |
| GreedyRouting.CandidatesMeans | src/pathfind.rs:280-345 | the first pass collects exactly the links to rooted peers strictly closer than the limit |
| GreedyRouting.GreedyMeans | src/pathfind.rs:280-345 | a node that knows its coordinates forwards exactly when it is below the watermark and some recorded link leads strictly closer than itself; the chosen link does, and the watermark becomes its own distance |
| GreedyRouting.GreedyWithoutPlace | src/pathfind.rs:280-345 | a node that does not know its coordinates forwards exactly when a recorded link leads to a peer with coordinates, and leaves the watermark |
| GreedyRouting.ChosenIsLeast | src/pathfind.rs:318-345 | among links to different peers the chosen one is least in cost times distance, distance, cost, age |
| GreedyRouting.ChosenHasPriority | src/pathfind.rs:318-345 | among links to one peer the chosen one has the lowest priority number |
| GreedyRouting.LoopFree | src/traffic.rs:162-173 | whatever the views of the nodes, agreeing or not, a packet crossing nodes that know their coordinates makes at most as many hops as the first node is away |
| TreeDelivery.PeerBook.Register | src/driver.rs:35-123 | a key keeps the port it got first, a new key gets a port nobody has, and every link gets a new order |
| TreeDelivery.BookSeparatesSiblings | src/driver.rs:43-86 | children that took their ports from one book have different ports |
| TreeDelivery.CoordsInjective | src/pathfind.rs:239-256 | in a tree, coordinates name nodes |
| TreeDelivery.AncestorAt | src/pathfind.rs:239-256 | every prefix of a node's coordinates names one of its ancestors |
| TreeDelivery.BeliefsAreTrue | src/pathfind.rs:239-256 | coordinates computed from a partial view that agrees with the tree are the tree's |
| TreeDelivery.CloserNeighbour | src/pathfind.rs:263-270 | anywhere but at the destination some tree neighbour is exactly one closer |
| TreeDelivery.HopIsCloser | src/pathfind.rs:280-345 | a settled node sends the packet to a peer strictly closer and marks it with its own distance |
| TreeDelivery.StopsAtDestination | src/pathfind.rs:280-345 | the destination keeps the packet |
| TreeDelivery.HopGoes | src/pathfind.rs:280-345 | on a settled tree every node but the destination passes the packet to a node strictly closer, marked with its own distance |
| WireDelivery.OverLinkIff | src/traffic.rs:102-156 | encoded, framed, read and decoded, a packet is the same if and only if both paths are sendable and it is within the message size |
| WireDelivery.LongPathIsDropped | src/frame.rs:214-229 | a packet with more than 128 ports in its path gets over no link |
| WireDelivery.Port129IsDropped | src/frame.rs:214-229 | 129 ports are too many |
| WireDelivery.GuidedArrives | src/traffic.rs:162-197 | hops that come strictly closer over links that change nothing bring the packet to the destination within the distance |
| WireDelivery.ArrivalsSendable | src/driver.rs:494-499 | whatever arrives over a link, however far, has sendable paths |
| WireDelivery.Delivers | src/traffic.rs:162-197 | greedy delivery over the wire: on a settled tree a packet with the destination's coordinates, from any other node, stops at exactly the destination, unchanged but for its watermark and within the tree distance, if and only if its first link can carry it |
| WireDelivery.SendableIsDepth | src/driver.rs:43-86 | with ports from the books, a node's coordinates are sendable if and only if it lies at most 128 hops deep |
| WireDelivery.DeliversByDepth | src/pathfind.rs:596-639 | so a packet between two nodes is delivered if and only if neither lies deeper than 128 hops and the packet is within the message size |
| WireDelivery.DeepDestinationIsLost | src/driver.rs:494-499 | a packet for a deeper node is lost on its first link, wherever it starts |
| SettledChain.ChainIsSettled | src/pathfind.rs:239-345 | a chain of any length is a settled network, so the delivery theorems have instances at every depth |
| SettledChain.ChainDelivers | src/traffic.rs:162-197 | on a chain a packet from the root reaches node k up to depth 128, and is lost on its first link beyond |
| Pathfinding.PathState.RumorLookup | src/pathfind.rs:520-548 | a lookup goes out unless one for the same transformed key went out less than a second ago, and the rumour is dated |
| Pathfinding.PathState.HoldForLookup | src/pathfind.rs:561-592 | the payload is held whether or not the lookup is throttled |
| Pathfinding.PathState.PathfinderSend | src/pathfind.rs:596-624 | the packet goes on an unbroken learned path, or waits behind a lookup |
| Pathfinding.PathState.HandleNotify | src/pathfind.rs:409-488 | a notify is taken when signed and news, and frees the payload held for its transform, a sealed one on the path just learned |
| Pathfinding.PathState.HandleBroken | src/pathfind.rs:491-515 | a known path is marked broken and looked up again |
| Pathfinding.PathState.ExpireEphemeral | src/driver.rs:348-356 | exactly the paths and rumours past their deadline go |
| PathRuns.StepKeeps | src/pathfind.rs:409-624 | every operation keeps the monitor of lookups, held and freed payloads and signed paths in step with the tables |
| PathRuns.RunIsSafe | src/pathfind.rs:409-624 | over every run: lookups for one transformed key are a second apart; a held payload is freed at most as often as it was held and only to a key of that transform; packets travel only on paths that came in a notify with their destination's valid signature |
| PathRuns.RoutedWasSigned | src/pathfind.rs:409-624 | in terms of the run alone: a step puts a packet on a path only if a notify of the run so far, or of the step itself, brought that path under the destination's valid signature |
| PathRuns.RepairedIff | src/pathfind.rs:422-442 | a path reported broken is usable again after a signed notify if and only if that is newer and names another path |
| PathRuns.ReportIsObeyed | src/pathfind.rs:491-515 | after a broken report for a key no step puts a packet for it on a path, until one brings a signed notify of that key which is taken: while the path is known, one that is newer and names another |
| PathRuns.ReportLooksUpIff | src/pathfind.rs:491-515 | over every run the report sends a lookup at once if and only if the path is known and no lookup went out in the last second |
| PathRuns.LooksUpIff | src/pathfind.rs:520-548 | over every run a lookup goes out if and only if none has for its transformed key, or the last one a second ago at least |
| PathRuns.SendsOrHolds | src/pathfind.rs:596-624 | a packet goes on a path in use, and is held if and only if there is none |
| PathRuns.NotifiedPathIsUsed | src/pathfind.rs:409-488 | a signed notify that is news, from a key known or looked for, puts its path to use for the next packet; any other leaves all paths as they are |
| PathRuns.FreedAsHeld | src/pathfind.rs:463-488 | an application's payload is never put on a path by the notify that frees it, and a sealed one held where nothing was goes on exactly the path notified |
| PathRuns.ForgetsIff | src/driver.rs:348-356 | after an expiry pass a path is left if and only if it was learned or heard over less than 60 seconds ago |
| PathRuns.HeardIsKept | src/traffic.rs:174-197 | traffic over a path in use keeps it through every expiry of the next 60 seconds |
| PathRuns.HeldUntilFreed | src/pathfind.rs:409-624 | in any one step, what is held for a transformed key changes only by holding, by freeing or by the expiry of its own rumour |
| PathRuns.HeldIsFreed | src/pathfind.rs:409-488 | over a run: a held payload waits through any steps, expiry passes included, that hold nothing else for its transform, free nothing from it and do not remove its rumour, and is then freed by a notify of that transform, to its source, if and only if that is signed and news |
| PathRuns.HeldIsFreedInTime | src/driver.rs:317-356 | over every run from the start: a payload held now outlives every expiry pass of the next 59 seconds, the timeout less the throttle |
| PathRuns.OwnersNotifyFrees | src/pathfind.rs:409-592 | so a payload held for an address, or any address in a /64, is freed to the owner by the owner's first notify of the next 59 seconds that is signed and news |
| BloomHash.Sum128 | src/bloom.rs:59-124 | the tail pass, pad byte first, equals the tail of plain MurmurHash3 on the tail with or without one byte 0x01 |
| BloomHash.PadBlocks | src/bloom.rs:127-153 | appending the byte leaves the blocks alone, or completes exactly one more block |
| BloomHash.BaseHashes | src/bloom.rs:127-153 | for every input the first pair is MurmurHash3 x64-128 of the data and the second that of the data with one byte 0x01 appended, for any word type whose xor is lawful |
| BloomHash.Murmur64Lawful | src/bloom.rs:24-49 | the 64-bit rounds of the source are such a word type |
| FlaggedWords.DecodeEncode | src/bloom.rs:266-293 | decoding undoes encoding for every sequence of words |
| FlaggedWords.EncodedLen | src/bloom.rs:222-255 | the length counted in the first pass is the length written and within the bound |
| FlaggedWords.ReencodesIffClean | src/bloom.rs:266-293 | an accepted buffer encodes back to itself if and only if none of its data words is all zeros or all ones |
| FlaggedWords.EncodeTo | src/bloom.rs:222-255 | the loops over flags and data write exactly the encoding and touch nothing after it, or leave a buffer too small untouched |
| FlaggedWords.EncodeLayout | src/bloom.rs:222-255 | a bit for each all-zero word, a bit for each all-one word, then the data |
| FlaggedWords.DataLayout | src/bloom.rs:222-255 | each other word takes its eight bytes in order |
| FlaggedWords.DecodeExact | src/bloom.rs:266-293 | the loop accepts exactly the decodable buffers and returns their words |
| BloomFilters.AddKeeps | src/bloom.rs:180-190 | no false negatives through `add`: the key added tests positive and no bit is lost |
| BloomFilters.MergeCovers | src/bloom.rs:192-196 | a merge has every bit of both |
| BloomFilters.CoversTest | src/bloom.rs:186-190 | a filter with more bits tests positive wherever the smaller one does |
| BloomFilters.Add | src/bloom.rs:180-184 | the loop sets exactly the probed bits |
| BloomFilters.FilterRoundTrip | src/bloom.rs:206-293 | every filter survives the wire, within the length bound |
| BloomFilters.WordBytesAt | src/bloom.rs:246-253 | words are written big-endian |
| BloomFilters.BufferRoundTrip | src/bloom.rs:206-293 | an accepted filter buffer encodes back to itself if and only if none of its data words is all zeros or all ones |
| BloomTables.BloomState.AddPeer | src/bloom.rs:335-360 | adding a peer again loses nothing, and a full table takes no new flag |
| BloomTables.BloomState.Fix | src/bloom.rs:364-403 | each flag says whether the peer is our parent or child, and for a peer that left a blank filter is recorded as sent |
| BloomTables.LeaverIsBlanked | src/bloom.rs:364-403 | a peer that left and comes back is advertised none of the old bits, just our own and those heard from the others |
| BloomTables.BloomState.BloomFor | src/bloom.rs:409-433 | the filter's bits are exactly our own, those heard from the other on-tree peers, and those already sent to this peer |
| BloomTables.AdvertUnique | src/bloom.rs:409-433 | that determines the filter, whatever order the peers are merged in |
| BloomTables.AdvertHolds | src/bloom.rs:409-433 | the filter tests positive for us and for all that another on-tree peer tested positive for |
| BloomTables.AdvertSettles | src/bloom.rs:435-478 | recording what was sent does not change the filter, so maintenance comes to rest |
| BloomTables.SentGains | src/bloom.rs:435-478 | a filter that goes out decodes to what is on record and has gained bits over the last one sent to that peer, and lost none |
| BloomTables.BloomState.Maintain | src/bloom.rs:435-478 | every on-tree peer is recorded as having been sent exactly its filter, the others are untouched, and exactly the changed filters of linked peers go out |
| BloomTables.BloomState.Handle | src/bloom.rs:480-490 | a decodable filter of a known peer replaces what was heard from it |
| BloomTables.BloomState.Multicast | src/bloom.rs:513-546 | one copy, in key order, to each linked on-tree peer but the sender whose filter tests positive, and to no other: the goals of the flood |
| BloomReach.SendsOutward | src/bloom.rs:513-546 | once filters have settled, a lookup is only ever sent away from where it started |
| BloomReach.RunKeepsInv | src/bloom.rs:513-546 | over every order of deliveries of a lookup that gets over links: each copy in flight is the only one for its node, which has not seen the lookup, no interested peer was forgotten, and each delivery visits one more node |
| BloomReach.HeardOfIsVisited | src/bloom.rs:409-433 | when nothing is in flight, a node whose sender heard of the target from it was visited, by induction back to the start |
| BloomReach.StaysAtStart | src/driver.rs:474-479 | over every order of deliveries, a message that links drop is handled by its starter alone |
| BloomReach.FloodReaches | src/bloom.rs:513-546 | on any tree-shaped graph, for any message that gets over links: no node twice, at most as many deliveries as nodes, and every owner at the end |
| BloomReach.ShapeOfTree | src/pathfind.rs:263-270 | the routing tree, seen from any node by coordinates, is such a graph |
| BloomReach.FlagsAreNeighbours | src/bloom.rs:364-403 | recomputed flags of a settled node name exactly its tree neighbours |
| BloomReach.LookupReaches | src/pathfind.rs:352-405 | multicast reach, over links that encode and decode the lookup: on a settled network no node handles it twice, it ends after fewer deliveries than there are nodes, and in the end every node whose transformed key is the target's has handled it if and only if the lookup gets over links or nobody but the starter is such a node |
| BloomReach.VisitedHasTarget | src/bloom.rs:513-546 | over every order of deliveries a node is visited only if every bit of the target is had by some node behind it, seen from the start, or was sent on from there |
| BloomReach.HeardComesFromBehind | src/bloom.rs:409-433 | every bit heard over an edge comes from a node behind it |
| BloomReach.LookupVisits | src/bloom.rs:513-546 | so on a settled network a lookup never visits a node with a bit of the target nowhere behind it |
| BloomReach.LookupPassesByDepth | src/pathfind.rs:352-363 | with ports from the books, a lookup gets over links if and only if it starts at most 128 hops deep |
| LookupCodec.EncodeLookup | src/pathfind.rs:87-91 | both keys, then the path back |
| LookupCodec.DecodeLookup | src/pathfind.rs:93-103 | the keys and the first path; what follows is not looked at |
| LookupCodec.LookupLayout | src/pathfind.rs:87-91 | source, target, path back, in this order |
| LookupCodec.LookupOverLinkIs | src/pathfind.rs:87-103 | exactly a lookup within the message size and with at most 128 ports before its first zero gets over a link, with its keys and those ports |
| LookupCodec.PassedPassesAgain | src/pathfind.rs:372-381 | what has got over one link gets over all others unchanged |
| LookupCodec.PassesByLength | src/frame.rs:214-229 | with no zero port a lookup gets over, unchanged, if and only if its path has at most 128 ports |
| LookupCodec.Port129IsRefused | src/frame.rs:214-229 | 129 ports are too many |
| BloomUpkeep.SettledStays | src/bloom.rs:435-490 | settled filters stay settled through maintenance at any node, and each packet it sends, decoded and handled, leaves its receiver as it was |
| BloomUpkeep.QuietIsSettled | src/bloom.rs:435-490 | filters at rest have settled: when all that was sent has been handled and maintenance changes nothing, each node has heard from each neighbour exactly the filter that neighbour has for it |
| BloomGossip.PassRoom | src/bloom.rs:435-478 | a maintenance pass uses up at least one of the bits not yet sent to each peer it sends to, and gives back none |
| BloomGossip.PassInStep | src/bloom.rs:435-490 | after a pass the newest word to a linked neighbour, under way or heard, decodes to what is on record as sent |
| BloomGossip.RestIsSettled | src/bloom.rs:435-490 | when nothing is under way on the tree and maintenance sends nothing, the filters have settled |
| BloomGossip.FiltersSettle | src/bloom.rs:435-490 | over every run of maintenance and handling in any order on a settled tree, at most 8192 passes send on any one directed edge, and at most 8192 times the number of edges on any set of edges; and whenever the run is at rest the filters have settled |
| SettledExample.PairIsBloomSettled | src/bloom.rs:364-433 | the reach theorem is not empty: for any two probe sets, tables whose filters have settled on the chain of two nodes |
| BloomReach.AddressLookupFindsOwner | src/address.rs:111-119 | end to end: a lookup by an owner's address, or any address in its /64, is in the end handled by the owner if and only if it starts at most 128 hops deep, and the owner's transformed key matches |
| Addresses.ComputeAddr | src/address.rs:31-69 | the bit loop over the inverted key gives the ones count and the padded payload of the address |
| Addresses.ComputeKey | src/address.rs:81-100 | the two bit loops rebuild the key whose inverse has those ones, a zero and that payload |
| Addresses.OnesMean | src/address.rs:31-69 | an address counts the zero bits its key starts with, up to 255 |
| Addresses.PayloadMeans | src/address.rs:31-69 | its payload is the key's following bits inverted, whole bytes of them |
| Addresses.PayloadEnds | src/address.rs:31-69 | and zero beyond |
| Addresses.FirstBytes | src/address.rs:71-119 | addresses start with 0x02 and subnets with 0x03, and a lookup tells them apart by it |
| Addresses.AddressRetracts | src/address.rs:31-100 | for every key, the address of the key recovered from its address is that address |
| Addresses.PrefixKeepsTransform | src/address.rs:71-106 | every address that shares a key's ones and first payload bytes leads to the same transformed key |
| Addresses.XKeyIdempotent | src/bloom.rs:330-332 | transforming twice is transforming once |
| Addresses.LookupMeetsOwner | src/address.rs:111-119 | the lookup key of a key's address, or of any address in its /64, has the key's transform |
| Announcing.RescanAt | src/multicast.rs:250-287 | what a scan leaves of each interface, by how often and how it is listed |
| Announcing.ScanForgetsIff | src/multicast.rs:250-287 | a scan keeps an interface's listener if and only if it does not list a bound interface more than once |
| Announcing.Multicast.SetInterfaces | src/multicast.rs:250-287 | the two loops compute that table |
| Announcing.Multicast.Announce | src/multicast.rs:292-381 | all unbinds in name order, then all binds and beacons in name order, and the table after both passes |
| Announcing.Multicast.GoOne | src/multicast.rs:314-378 | one interface's turn: join, bind, or beacon with the reported port and a longer interval |
| Announcing.Multicast.ListenerUp | src/multicast.rs:386-390 | the port of a known interface is recorded |
| AnnounceRuns.TickIsLocal | src/multicast.rs:292-381 | of a whole tick an interface sees its own unbind and then its own bind or beacon |
| AnnounceRuns.TickKeeps | src/multicast.rs:292-381 | a tick keeps what the machine knows of an interface equal to what was seen of it |
| AnnounceRuns.RunKeeps | src/multicast.rs:250-390 | so does every run in which no bound interface is listed twice |
| AnnounceRuns.RunIsSafe | src/multicast.rs:204-390 | over every such run and for every interface: each Bind comes first or after an Unbind, each Unbind after a Bind, each Beacon in a bound period, with the port reported last, and at least min(k, 15) seconds after the k-th beacon of the period |
| AnnounceRuns.TickDoes | src/multicast.rs:292-381 | what a tick does, exactly, after any careful run, from the latest scan and what was seen: it unbinds what is bound but not listed there, binds what is listed to beacon and not bound there, and beacons, with the last reported port and the listed password's hash, if no beacon of the period has gone out or the k-th did min(k, 15) seconds ago at least |
| AnnounceRuns.TableHoldsListing | src/multicast.rs:250-287 | the table holds for each interface just its configuration in the latest scan, and that password's hash |
| AnnounceRuns.PortKnownIff | src/multicast.rs:343-390 | without early reports a bound interface has a port exactly if one was reported since its Bind |
| AnnounceRuns.TickJoins | src/multicast.rs:326-331 | a tick joins the group on each interface listed to listen, and leaves it on none |
| AnnounceRuns.RunIsPrompt | src/multicast.rs:343-390 | over every such run in which no port is reported while the interface is known and unbound, each beacon's port was reported after the Bind of its period |
| AnnounceRuns.EarlyReportBreaksIff | src/multicast.rs:343-390 | after any such run, one more report leaves every beacon with a report after its Bind if and only if the interface is not known and unbound when the report comes |
| AnnounceRuns.DoubleListingBreaksIff | src/multicast.rs:250-381 | after any such run, a scan and a tick break this if and only if the scan lists a bound interface twice and wants it to beacon |
| AnnounceRuns.ListedTwiceBindsTwice | src/multicast.rs:250-287 | the shortest run that breaks it |
| QueryText.QueryEscape | src/multicast.rs:490-507 | the loop writes the percent-encoding |
| QueryText.QueryUnescape | src/link.rs:705-731 | the loop reads it, `+` as a space, and gives nothing for a bad escape or bytes that are not UTF-8 |
| QueryText.UnescapeEscape | src/link.rs:705-731 | unescaping undoes escaping for UTF-8 text, and gives nothing for any other bytes |
| QueryText.EscapeIsWhole | src/multicast.rs:490-507 | escaped text holds no separator of the query |
| QueryText.EscapeShape | src/multicast.rs:490-507 | unreserved bytes stand for themselves, a space is a plus sign, any other byte a percent sign and two upper-case digits |
| QueryText.PlusIsADigit | src/link.rs:716-721 | the reader of an escape takes a plus sign for its first digit |
| QueryText.ParseDecimal | src/link.rs:666-668 | every priority from 0 to 255 is read back from its decimal text |
| QueryText.NumbersTaken | src/link.rs:666-668 | a plus sign may lead a priority; above 255, or no digit, is refused |
| QueryText.HexRoundTrip | src/multicast.rs:468-480 | every key is read back from its hexadecimal text |
| PeerUris.ParseLinkUri | src/link.rs:618-690 | the loop over the options computes the parse, with the errors in the order of the options |
| PeerUris.SchemeIff | src/link.rs:619-631 | a URI has a scheme exactly if it starts with that scheme's text |
| PeerUris.BareHostParses | src/link.rs:618-650 | in every scheme a bare host is read back with every option at its default, and no host is an error |
| PeerUris.NameParses | src/link.rs:678-678 | a server name is taken as it is, in every scheme |
| PeerUris.BackoffParses | src/link.rs:679-685 | a backoff below five seconds, or that is none, is refused and any other taken |
| PeerUris.KeyParses | src/link.rs:669-677 | a pinned key must be 64 hexadecimal digits |
| PeerUris.PriorityParses | src/link.rs:666-668 | a priority must be a number up to 255 |
| PeerUris.PasswordParses | src/link.rs:657-666 | a password must be at most 64 bytes |
| PeerUris.UnknownIsIgnored | src/link.rs:686-687 | any other option is ignored |
| PeerUris.ListenUriRoundTrips | src/multicast.rs:453-461 | parsing a printed listen URI recovers address, port, password and priority if and only if the password is UTF-8 of at most 64 bytes and the address text has no question mark |
| PeerUris.DialUriRoundTrips | src/multicast.rs:468-480 | the same for a dial URI, with the pinned key |
| PeerUris.PrintedListenUri | src/multicast.rs:453-461 | a printed listen URI, letter by letter |
| PeerUris.PrintedDialUri | src/multicast.rs:468-480 | a printed dial URI, letter by letter |
| PeerUris.BrokenPasswordIsLost | src/link.rs:705-731 | a password that is not UTF-8 is read back as no password, with everything else intact |
| PeerUris.ByteFFIsLost | src/link.rs:705-731 | for instance the one byte 0xFF |
| Frames.ReadsBack | src/frame.rs:232-244 | varints are self-delimiting: for every 64-bit value and whatever follows, exactly the value and its length come back |
| Frames.ReadFits | src/frame.rs:232-244 | what is read fits 64 bits and took at most ten bytes |
| Frames.CanonicalIff | src/frame.rs:232-244 | the bytes read are the ones the value is written as if and only if they have no spare zero byte at the end |
| Frames.AppendUvarint | src/frame.rs:197-203 | the appending writer gives the varint's bytes |
| Frames.WriteUvarint | src/frame.rs:141-153 | the buffer writer gives the same bytes in place and touches no other |
| Frames.ReadUvarint | src/frame.rs:232-244 | the loop over the bytes computes the reading, with the bits read so far below those added |
| Frames.AppendPath | src/frame.rs:206-211 | ports as varints, then a zero |
| Frames.SplitPath | src/frame.rs:214-229 | the loop splits off the ports up to the first zero and refuses more than 128 |
| Frames.SplitsBackIff | src/frame.rs:206-229 | a list comes back with exactly its bytes consumed if and only if it has no zero port and at most 128 hops |
| Frames.SplitSound | src/frame.rs:214-229 | whatever is split off has no zero port and at most 128 hops |
| Frames.SplitRefuses | src/frame.rs:214-229 | more than 128 nonzero ports are refused |
| Frames.FrameReadsBack | src/frame.rs:121-195 | in any stream the length prefix ends the frame, and its body gives type and payload back if and only if it is within the message size |
| Frames.KindsAreDense | src/frame.rs:37-82 | the frame kinds are the bytes 0 to 9 in order, and no other byte is one |
| Frames.KeepAliveFrame | src/frame.rs:1-5 | a keepalive is the two bytes 1, 1, and 300 is written 0xAC 0x02 |
| Frames.WireLen | src/frame.rs:178-187 | the counted length is the framed length |
| Frames.EncodeFrameTo | src/frame.rs:121-134 | the whole frame is written, or the buffer is untouched |
| TrafficCodec.UvarintLength | src/traffic.rs:40-48 | the counted length is the length written |
| TrafficCodec.EncodedLen | src/traffic.rs:87-93 | the counted length is the exact length of the packet |
| TrafficCodec.WritePath | src/traffic.rs:54-60 | the buffer writer gives the same bytes as the appending one |
| TrafficCodec.EncodeTo | src/traffic.rs:102-124 | the whole packet and its exact count, or an untouched buffer |
| TrafficCodec.Decode | src/traffic.rs:135-156 | the steps of the decoder compute the unpacking |
| TrafficCodec.RoundTripsIff | src/traffic.rs:102-156 | a packet comes back whole if and only if both paths have no zero port and at most 128 hops |
| TrafficCodec.PackedLayout | src/traffic.rs:102-124 | path, path back, source, destination, watermark, payload, in this order |

## Left out

- Sockets, TLS, WebSocket, QUIC, the handshake on a new link, the serve loop, configuration, the admin socket and the TUN device: input and output.
- Real cryptography: see the ideals above.
- Session key sequences wrap as 64-bit counters in the source; here they are unbounded.
- Session messages are values: the byte layout of inits, acks and traffic, and of signed requests and announces, is not modelled beyond the varints and paths they are made of.
- The init sent for traffic of an unknown peer, whose keys are dropped at once, and the expiry of sessions and buffers.
- SessionInOrder.EveryArrivalOpens: assumes that no nonce wraps, because the message of a wrap never opens (`OpensIffNotWrapping`).
- SpanningTree.TreeState.FixParent: sending the requests is reduced to clearing the old responses; expiry of infos and the deadlines of requests are not modelled.
- SpanningTree.TreeState.BecomeRoot: leaves out the refresh deadline, like all deadlines of the tree.
- GreedyRouting.GreedyMeans: does not say which of several closer links wins; that is characterised for links to different peers and for links to one peer (`ChosenIsLeast`, `ChosenHasPriority`), not for mixtures, where the rules of the second pass depend on the order of the links.
- TreeDelivery.PeerBook.Register: covers ports and orders; the first request to a new peer and the bloom entry are not part of it.
- Pathfinding: a lookup for the node's own transformed key, which the node answers itself, and the signing of notifies are not modelled; forwarding of notifies and broken reports is `GreedyRouting`.
- PathRuns.RunIsSafe: does not say whether a freed payload goes out sealed or unsealed, because the source overwrites a held payload without resetting that mark; `FreedAsHeld` says it where no other payload was held before.
- WireDelivery and BloomReach: a link drops what does not decode and nothing else; each carries one frame whole, and a frame too long, which ends the link in the source, is a drop here.
- FlaggedWords and BloomFilters: a 64-bit word is its 64 bits; the source's one loop over both flag blocks is two here.
- Addresses: an address is its prefix byte, ones count and payload, and the growing buffer of the bit loop is a sequence; the text form is left out.
- Announcing: the received beacons and their dial commands, and the byte form of an advertisement.
- PeerUris: the text of IPv6 addresses and of durations is a parameter, and the two errors for a bad key are one.
