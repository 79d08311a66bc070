# Verified model of the BGP daemon

A Dafny model of the parts of bgpd, the BGP daemon of this Quagga fork, whose correctness is least
visible in the code: structures edited in place, protocols that run over many steps, codecs with
several representations, and reference counts. Nothing in it is executed; every claim is a contract
that the Dafny verifier proves.

| files | component | main results |
|---|---|---|
| `Multipath.dfy` | multipath update | `Update`: the in-place walk computes the selection; `CompareOrders` |
| `AdjOut.dfy`, `AdjOutOrder.dfy` | Adj-RIB-Out | `NeighbourFollowsRequests`, `NeighbourConverges`, `AnnouncedInTurn` over all interleavings |
| `AsPath.dfy`, `AsPathAggregate.dfy`, `AsPathReconcile.dfy` | AS path algebra | `NormaliseCanonical`, `AggregateMeaning`, `SequencesAggregate`, `AggregateKeepsAll`, `ReconcileMeaning`, `ReconcileConfedsIff` |
| `AsPathWire.dfy`, `AsPathPack.dfy`, `AsPathText.dfy`, `TextReads.dfy` | AS paths on the wire and as text | `WireRoundTripIff`, `CountIff`, `TextRoundTrip`, `PrintSpells` |
| `AttrParse.dfy`, `AttrAccept.dfy`, `AttrSend.dfy`, `AttrArrive.dfy`, `AttrTold.dfy`, `AttrWrite.dfy`, `Encap.dfy` | attribute codec | `ParseMerges`, `ParseStops`, `OneSorts`, `AttributesArrive`, `AttributesTold`, `OutgoingMeans`, `RouteArrives`, `ClusterListIff`, `PutAttributes`, `EncapRoundTripIff` |
| `Intern.dfy`, `InternRuns.dfy`, `InternHandles.dfy`, `InternInPlace.dfy` | attribute interning | `EqualInternOnce`, `EveryRun`, `HandlesCount`, `ContentsStay` |
| `Damp.dfy`, `DampLists.dfy`, `DampTimer.dfy`, `DampRuns.dfy`, `DampInPlace.dfy` | flap damping | `TickKeeps` and `TickKeepsOnlyCalm`, `RunKeeps` and `RunKeepsOnlyCalm`, `ReuseOnTime`, `NoReuseListIsLost`, `Hysteresis` |
| `Fsm.dfy`, `FsmEvents.dfy` | session state machine | `RunKeeps`, `EveryRun`, `SessionLostUnseen`, `HandshakeInOrder`, `NeverStranded`, `EventLeads`, `RunBacksOff` |
| `Community.dfy` | communities | `UniqSort`, `Match`, `TextRoundTrip` |
| `Vectors.dfy`, `AttrVectors.dfy` | known octets and texts | `PathVector`, `MessageVector` |
| `Lists.dfy`, `Options.dfy`, `Sorting.dfy`, `Octets.dfy`, `Streams.dfy`, `Decimal.dfy` | shared | sequences, sorting, octets, bounded streams, numerals |

`dafny verify dfyconfig.toml` checks the whole project.

## How it is built

Code that computes is modelled by functions. Code that changes things in place is modelled by classes
and by methods with loops, each proved against a function on values; the theorems are lemmas about those
functions. The multipath chains and the damping lists, which the daemon links through its records, are
linked here in the same way, through fields of objects (`Multipath.PathInfo`, `DampLists.Info`), and
mirrored by maps in the proofs.

Seven places where the code does not do what it is meant to do are kept as they are. The intended
property is shown to fail on concrete inputs, and proved to hold exactly under a condition that can be
told beforehand.

- `aspath_put` writes every overlength chunk from the start of the segment and counts it wrongly from the
  third on (`WireRoundTripIff`, `CountIff`, `LongSequenceIsLost`).
- `aspath_put` packs adjacent sequences into one segment, but sets its length from the last of them only
  (`LengthRightIff`, `PackedArrives`, `ThreeAreLost`); normal paths have nothing to pack.
- `aspath_aggregate` can apply the match count of one pair of segments to the next
  (`AggregateKeepsAll`, `AggregateLosesASet`).
- `bgp_reuse_timer` clears the flag of a record before freeing it, so that the record is unlinked from the
  no-reuse list although it was on the wheel (`TickKeeps`, `TickKeepsOnlyCalm`). `NoReuseListIsLost` is a
  whole run with regular ticks and scans, and `HalfLifeTenLoses` a configuration for it.
- `bgp_attr_encap` stops with fewer than four octets to go, so that a chain which
  `bgp_packet_mpattr_tea` sends may be refused (`EncapRoundTripIff`, `ShortEndIsRefused`).
- `bgp_packet_attribute` writes the length of a cluster list into one octet even when it does not fit
  (`PutAttributes`, `CutListFound`, `ClusterListIff`, `SixtyThreeClusters`).
- A completion of route clearing can reach a session that does not wait for one: `bgp_open_receive` transfers
  a connection to a peer in Clearing when it has closed another one for it, and `bgp_clear_route` is also
  called for single address families of an established session. Later the completion drops the session
  without counting it or clearing its routes (`StepKeeps`, `RunKeeps`, `SessionLostUnseen`).

AS4_PATH carries no confederation segments, so on an OLD session the member ASes that need four octets are
lost by design; `ReconcileConfedsIff` and `ArrivingIff` say that nothing else is.

Where the code and its comments or the RFCs differ, the code is followed. An AS4_AGGREGATOR without an AGGREGATOR, for
one, is taken in its place as the comments say, but without its address (`ParseMerges`).

The environment enters as parameters: the clock, answers of system calls and the configuration that the
state machine looks at (`Fsm.Env`), capacities of packets (`AdjOut.Sizes`), tables that are computed in
floating point (`Damp.Config`), and addresses of new objects (`Intern`).

## Model

| member | source | states |
|---|---|---|
| `Multipath.CompareOrders` | quagga-ldpd/bgpd/bgp_mpath.c:132-198 | two paths have one nexthop for the selection exactly when they forward to the same place: equal IPv4 nexthops and, where both have a multiprotocol nexthop of one length, equal addresses of that length; paths are ordered by nexthop, then by these addresses, then by peer, antisymmetric and among comparable paths transitive |
| `Multipath.Dequeue` | quagga-ldpd/bgpd/bgp_mpath.c:317-330 | the path is bypassed by both neighbours, its links and flag are cleared, and every other link is untouched |
| `Multipath.Enqueue` | quagga-ldpd/bgpd/bgp_mpath.c:293-311 | the path is linked right behind another one, with flag and record, and every other link is untouched |
| `Multipath.Remove` | quagga-ldpd/bgpd/bgp_mpath.c:317-330 | on the two chains in memory: exactly this path leaves the chain it was on, the order of the rest stays |
| `Multipath.Append` | quagga-ldpd/bgpd/bgp_mpath.c:293-311 | on the two chains in memory: the path is appended to the chain being built, the other chain stays |
| `Multipath.GreedySelected` | quagga-ldpd/bgpd/bgp_mpath.c:464-573 | for every candidate list without repetition the greedy pick is the selection, said of each pick and of each candidate |
| `Multipath.GreedyBound` | quagga-ldpd/bgpd/bgp_mpath.c:464-573 | the greedy pick has at most maxpaths - 1 members |
| `Multipath.Walk` | quagga-ldpd/bgpd/bgp_mpath.c:464-573 | for every old chain and every duplicate-free candidate list the double walk terminates and leaves exactly the greedy pick linked behind the best path; no change mark means the chain is the old one, and over a sorted list a change mark means it is not |
| `Multipath.Clear` | quagga-ldpd/bgpd/bgp_mpath.c:464-573 | without a new best path the walk empties the old chain, clearing all its links and flags |
| `Multipath.CountSet` | quagga-ldpd/bgpd/bgp_mpath.c:373-386 | the count is stored, and a record is allocated only for a count that is not zero |
| `Multipath.Update` | quagga-ldpd/bgpd/bgp_mpath.c:421-581 | whatever the old chain was, the new chain is the selection: its neighbours forward to different places, and each candidate left out is the best path, forwards to the same place as the last member picked before it, or finds no room; the flag is set on exactly its members, the count is its length; if the old count was right and no change is marked the chain is the old one element for element, and over a sorted list the mark is set exactly when it differs |
| `AdjOut.PushKeeps` | quagga-ldpd/bgpd/bgp_advertise.c:102-136 | adding an advertisement keeps one non-empty bucket per announced attribute, whose count is the length of its chain |
| `AdjOut.PullKeeps` | quagga-ldpd/bgpd/bgp_advertise.c:112-154 | taking one out keeps that, dropping the bucket with its last advertisement |
| `AdjOut.CleanKeeps` | quagga-ldpd/bgpd/bgp_advertise.c:182-214 | cleaning a pending advertisement takes it out of its FIFO and bucket and keeps the rest in order |
| `AdjOut.SetKeeps` | quagga-ldpd/bgpd/bgp_advertise.c:216-268 | bgp_adj_out_set keeps the invariant and makes exactly this announcement pending, replacing what was pending for the node |
| `AdjOut.UnsetKeeps` | quagga-ldpd/bgpd/bgp_advertise.c:270-316 | bgp_adj_out_unset keeps the invariant; a sent route becomes a pending withdrawal, an unsent one disappears |
| `AdjOut.SetWants` | quagga-ldpd/bgpd/bgp_advertise.c:216-268 | the table of last requests gains the announcement, what was sent does not change |
| `AdjOut.UnsetWants` | quagga-ldpd/bgpd/bgp_advertise.c:270-316 | the table of last requests loses the node, what was sent does not change |
| `AdjOut.UpdateLoopKeeps` | quagga-ldpd/bgpd/bgp_packet.c:166-259 | the packing loop keeps the invariant, sends only prefixes pending for the attribute of the packet, and marks exactly those sent |
| `AdjOut.WithdrawLoopKeeps` | quagga-ldpd/bgpd/bgp_packet.c:354-415 | the packing loop keeps the invariant and removes exactly the adjacencies whose withdrawal it packs |
| `AdjOut.UpdateStepKeeps` | quagga-ldpd/bgpd/bgp_packet.c:144-284 | an UPDATE carries prefixes of one attribute only, keeps neighbour and sent table equal, shortens the FIFO, and is missing exactly when nothing is pending or the first prefix does not fit |
| `AdjOut.WithdrawStepKeeps` | quagga-ldpd/bgpd/bgp_packet.c:336-436 | a withdraw packet keeps neighbour and sent table equal, shortens the FIFO, and is missing exactly when nothing is pending or the first prefix does not fit |
| `AdjOut.StepKeeps` | quagga-ldpd/bgpd/bgp_advertise.c:182-316 | every operation keeps: each pending advertisement in exactly one FIFO, bucket counts, scount, and the neighbour table equal to what was sent |
| `AdjOutOrder.RequestsQueueUp` | quagga-ldpd/bgpd/bgp_advertise.c:182-316 | a request goes to the end of its FIFO, what was pending for the node leaves both, and the others keep their order |
| `AdjOutOrder.UpdateInOrder` | quagga-ldpd/bgpd/bgp_packet.c:144-284 | an UPDATE starts with the first announcement pending; its prefixes and no others become sent, and the rest of the FIFO keeps its order |
| `AdjOutOrder.WithdrawInOrder` | quagga-ldpd/bgpd/bgp_packet.c:336-436 | a withdraw packet takes exactly the front of its FIFO out of FIFO and table |
| `AdjOutOrder.UpdateFills` | quagga-ldpd/bgpd/bgp_packet.c:166-259 | an UPDATE of more than one prefix fits its capacity, and if announcements with its attribute are left the next one would not have fitted |
| `AdjOutOrder.WithdrawFills` | quagga-ldpd/bgpd/bgp_packet.c:354-415 | so with withdraw packets, which keep two octets to spare |
| `AdjOutOrder.StepDue` | quagga-ldpd/bgpd/bgp_advertise.c:182-316 | every packet brings what waits in its FIFO closer by at least one place, and no request for another node sets it back |
| `AdjOutOrder.AnnouncedInTurn` | quagga-ldpd/bgpd/bgp_packet.c:144-284 | first in, first out over every run: an announcement at place k has reached the neighbour, with its attribute, after k + 1 packets, unless its own route is requested anew |
| `AdjOutOrder.WithdrawnInTurn` | quagga-ldpd/bgpd/bgp_packet.c:336-436 | so has a withdrawal |
| `AdjOut.RunSynchronised` | quagga-ldpd/bgpd/bgp_advertise.c:182-316 | every state reached by any interleaving of operations is synchronised: the neighbour has what was sent, and what is wanted is what was last requested |
| `AdjOut.NeighbourFollowsRequests` | quagga-ldpd/bgpd/bgp_packet.c:144-436 | for every interleaving of set, unset, UPDATE and withdraw steps: the table of the neighbour is node to sent attribute, look-ups answer the last request, and with both FIFOs empty the table of the neighbour is the table of last requests |
| `AdjOut.NeighbourConverges` | quagga-ldpd/bgpd/bgp_packet.c:144-436 | from every reachable state, finitely many packets bring the table of the neighbour to the last requests |
| `AdjOut.Peer.AdvertiseClean` | quagga-ldpd/bgpd/bgp_advertise.c:182-214 | the fields change as the value-level step says |
| `AdjOut.Peer.Set` | quagga-ldpd/bgpd/bgp_advertise.c:216-268 | the fields change as the value-level step says, and the invariant holds again |
| `AdjOut.Peer.Unset` | quagga-ldpd/bgpd/bgp_advertise.c:270-316 | the fields change as the value-level step says, and the invariant holds again |
| `AdjOut.Peer.Announced` | quagga-ldpd/bgpd/bgp_packet.c:250-259 | one adjacency is marked sent and its advertisement cleaned |
| `AdjOut.Peer.MakeUpdate` | quagga-ldpd/bgpd/bgp_packet.c:144-284 | the packet and the fields are those of the value-level step, and the invariant holds again |
| `AdjOut.Peer.Withdrawn` | quagga-ldpd/bgpd/bgp_packet.c:404-407 | one adjacency is removed with its advertisement |
| `AdjOut.Peer.MakeWithdraw` | quagga-ldpd/bgpd/bgp_packet.c:336-436 | the packet and the fields are those of the value-level step, and the invariant holds again |
| `AsPath.NormaliseMeaning` | quagga-ldpd/bgpd/bgp_aspath.c:255-318 | normalising preserves the meaning of a path: adjacent AS_SEQUENCEs concatenate, sets are sets |
| `AsPath.NormaliseNormal` | quagga-ldpd/bgpd/bgp_aspath.c:255-318 | the result is in normal form: sets strictly ascending, no adjacent AS_SEQUENCEs |
| `AsPath.NormalFixed` | quagga-ldpd/bgpd/bgp_aspath.c:255-318 | a path in normal form is not changed |
| `AsPath.NormaliseIdempotent` | quagga-ldpd/bgpd/bgp_aspath.c:255-318 | normalising twice is normalising once |
| `AsPath.NormaliseCanonical` | quagga-ldpd/bgpd/bgp_aspath.c:1857-1878 | for chains without empty AS_SEQUENCEs, normal forms are equal exactly when the meanings are |
| `AsPath.RebuildMeaning` | quagga-ldpd/bgpd/bgp_aspath.c:255-318 | the normal form can be rebuilt from the meaning alone |
| `AsPath.Compare` | quagga-ldpd/bgpd/bgp_aspath.c:1857-1878 | the comparison loop answers whether the two chains are equal |
| `AsPath.WeedDupes` | quagga-ldpd/bgpd/bgp_aspath.c:279-291 | the in-place weeding leaves the sorted segment without repetitions in front of the array |
| `AsPath.SortSegment` | quagga-ldpd/bgpd/bgp_aspath.c:268-292 | sets are sorted and weeded, other segments stay |
| `AsPath.NormaliseChain` | quagga-ldpd/bgpd/bgp_aspath.c:255-318 | the loop over the chain computes the normal form |
| `AsPathAggregate.AggregateMeaning` | quagga-ldpd/bgpd/bgp_aspath.c:1016-1100 | for all paths, hop by hop: the leading segments in common, then what the next two have in common if they are of one type, then at most one set, of all ASNs not skipped behind that |
| `AsPathAggregate.CommonStarts` | quagga-ldpd/bgpd/bgp_aspath.c:1030-1065 | unless it ends within a set or a confederation segment, that common part starts both paths |
| `AsPathAggregate.SequencesAggregate` | quagga-ldpd/bgpd/bgp_aspath.c:983-1087 | for paths that lead with different sequences: the longest common start, hop by hop, and then one set of exactly the ASNs that come behind it in either |
| `AsPathAggregate.AggregateCommutes` | quagga-ldpd/bgpd/bgp_aspath.c:1016-1100 | aggregation is commutative |
| `AsPathAggregate.AggregateIdempotent` | quagga-ldpd/bgpd/bgp_aspath.c:1016-1100 | a normal path without empty segments aggregates with itself to itself |
| `AsPathAggregate.AggregateAsns` | quagga-ldpd/bgpd/bgp_aspath.c:1016-1100 | the aggregate holds exactly the ASNs of the common part and of what was collected |
| `AsPathAggregate.AggregateInventsNothing` | quagga-ldpd/bgpd/bgp_aspath.c:1016-1100 | no ASN is introduced that is in neither input |
| `AsPathAggregate.AggregateKeepsAll` | quagga-ldpd/bgpd/bgp_aspath.c:1035-1087 | every ASN of both inputs is kept exactly when the match count is not stale or what a stale count skips is kept anyway |
| `AsPathAggregate.AggregateLosesASet` | quagga-ldpd/bgpd/bgp_aspath.c:1035-1087 | two concrete paths whose aggregate loses an ASN through a stale match count |
| `AsPathAggregate.MatchLength` | quagga-ldpd/bgpd/bgp_aspath.c:1042-1046 | the loop counts the common prefix |
| `AsPathAggregate.CollectSegment` | quagga-ldpd/bgpd/bgp_aspath.c:975-1014 | the loop adds the ASNs of a segment that are not collected yet |
| `AsPathAggregate.CollectRest` | quagga-ldpd/bgpd/bgp_aspath.c:1076-1094 | the loop collects the rest of a path, the first segment from the match count on |
| `AsPathAggregate.Aggregated` | quagga-ldpd/bgpd/bgp_aspath.c:1016-1100 | the loops compute the aggregate |
| `AsPathWire.ParseEncodeAll` | quagga-ldpd/bgpd/bgp_aspath.c:705-799 | parsing encoded segments of 1 to 255 ASNs gives the normal form of what was encoded |
| `AsPathWire.ParseWire` | quagga-ldpd/bgpd/bgp_aspath.c:845-946 | parsing what aspath_put wrote gives the normal form of the chunks it wrote, for every normal path |
| `AsPathWire.WireRoundTrip` | quagga-ldpd/bgpd/bgp_aspath.c:705-946 | AS_SEQUENCEs of at most 510 and other segments of at most 255 ASNs come back exactly with 4-octet ASNs, and as the normal form of the AS_TRANS image with 2-octet ASNs |
| `AsPathWire.WireRoundTripIff` | quagga-ldpd/bgpd/bgp_aspath.c:902-908 | with 4- and with 2-octet ASNs, a normal path, or its AS_TRANS image, comes back exactly when in that image every full chunk of an AS_SEQUENCE repeats its first 255 ASNs and no other segment is longer than 255 |
| `AsPathWire.CountIff` | quagga-ldpd/bgpd/bgp_aspath.c:902-908 | the octet count returned is what was written exactly when no segment has more than 510 ASNs |
| `AsPathWire.LongSequenceIsLost` | quagga-ldpd/bgpd/bgp_aspath.c:902-908 | a sequence of 511 different ASNs does not come back, and is miscounted |
| `AsPathPack.PackedArrives` | quagga-ldpd/bgpd/bgp_aspath.c:917-938 | any path of segments of 1 to 255 ASNs, normal or not, comes back in normal form if no sequence is packed with more than one other |
| `AsPathPack.LengthRightIff` | quagga-ldpd/bgpd/bgp_aspath.c:917-938 | the length octet is right exactly when the ASNs packed between the first and the last sequence make up a multiple of 256, such as none |
| `AsPathPack.ThreeAreLost` | quagga-ldpd/bgpd/bgp_aspath.c:917-938 | three sequences of one ASN: the octets written, whose length tells two of them, and that they are refused |
| `AsPathPack.NothingWritten` | quagga-ldpd/bgpd/bgp_aspath.c:876-883 | nothing is written, and zero counted, exactly for a path that is empty or starts with an empty segment |
| `AsPathWire.PutData` | quagga-ldpd/bgpd/bgp_aspath.c:845-861 | with room, the ASNs are written, large ones as AS_TRANS in the 2-octet form |
| `AsPathWire.PutFull` | quagga-ldpd/bgpd/bgp_aspath.c:896-910 | the loop over the full chunks writes and counts what the specification says |
| `AsPathWire.PutLast` | quagga-ldpd/bgpd/bgp_aspath.c:912-938 | the last chunk takes in the following short sequences, and its length octet is corrected in place |
| `AsPathWire.Put` | quagga-ldpd/bgpd/bgp_aspath.c:875-946 | with room, aspath_put writes exactly the specified octets and returns the specified count; it never writes past the stream |
| `AsPathWire.ParseBlock` | quagga-ldpd/bgpd/bgp_aspath.c:705-799 | the parsing loop computes the specified result, refusing odd lengths, empty, overlong and unknown segments |
| `AsPathReconcile.NormaliseHops` | quagga-ldpd/bgpd/bgp_aspath.c:411-446 | normalising keeps the hop count |
| `AsPathReconcile.ReconcileUntouched` | quagga-ldpd/bgpd/bgp_aspath.c:1473-1566 | a confederation-free path whose AS_TRANS image arrives unchanged is recovered from AS4_PATH |
| `AsPathReconcile.ReconcilePrepended` | quagga-ldpd/bgpd/bgp_aspath.c:1473-1566 | after OLD speakers prepended a sequence to the AS_TRANS image, reconciliation gives the normal form of that sequence followed by the 4-octet path |
| `AsPathReconcile.ReconcileConfeds` | quagga-ldpd/bgpd/bgp_aspath.c:1473-1621 | for a path inside a confederation, what is behind the leading confederation segments is recovered and these are taken as they arrived |
| `AsPathReconcile.ReconcileConfedsIff` | quagga-ldpd/bgpd/bgp_aspath.c:1473-1621 | so the whole path is recovered exactly when no ASN of the confederation segments needs four octets |
| `AsPathReconcile.MemberAsIsLost` | quagga-ldpd/bgpd/bgp_aspath.c:1473-1621 | a concrete member AS that comes back as AS_TRANS |
| `AsPathReconcile.ReconcileMeaning` | quagga-ldpd/bgpd/bgp_aspath.c:1473-1566 | for all paths, hop by hop: the hops that AS_PATH has in excess of AS4_PATH, and AS4_PATH behind them; if AS_PATH is shorter, its length outside confederations counts as the excess |
| `AsPathReconcile.ReconcileAsns` | quagga-ldpd/bgpd/bgp_aspath.c:1473-1566 | for all inputs, every ASN of AS4_PATH is in the result and every ASN of the result is in one of the inputs |
| `AsPathReconcile.Reconciled` | quagga-ldpd/bgpd/bgp_aspath.c:1473-1566 | the loop computes the reconciled path |
| `Decimal.DigitsValue` | quagga-ldpd/bgpd/bgp_aspath.c:1754-1767 | a printed number is read back, in 32-bit arithmetic |
| `AsPathText.LexPrint` | quagga-ldpd/bgpd/bgp_aspath.c:1709-1772 | the tokens of a printed path are its segments and ASNs in order |
| `TextReads.NumberRead` | quagga-ldpd/bgpd/bgp_community.c:541-580 | a plain number is read as a community, modulo 2 to the 32 |
| `TextReads.HalvesRead` | quagga-ldpd/bgpd/bgp_community.c:541-580 | two numbers with a colon are its halves; without the second one the text is unknown |
| `TextReads.ColonsRead` | quagga-ldpd/bgpd/bgp_community.c:541-580 | with a second colon the text is unknown |
| `TextReads.OthersRead` | quagga-ldpd/bgpd/bgp_community.c:486-583 | what any other text is read as: blanks passed over, the four names with their numbers, the rest unknown |
| `TextReads.CharacterRead` | quagga-ldpd/bgpd/bgp_aspath.c:1710-1772 | what each character that is no digit stands for in the text of an AS path |
| `TextReads.ValueIs` | quagga-ldpd/bgpd/bgp_aspath.c:1756-1764 | a numeral is read digit by digit, modulo 2 to the 32 |
| `TextReads.AsnRead` | quagga-ldpd/bgpd/bgp_aspath.c:1710-1772 | a number is read up to the first character that is no digit, modulo 2 to the 32 |
| `AsPathText.PrintSpells` | quagga-ldpd/bgpd/bgp_aspath.c:519-622 | the text of every path: segments with blanks between them, each told by its brackets, with commas in sets and blanks in sequences |
| `Vectors.PathVector` | quagga-ldpd/bgpd/bgp_aspath.c:519-622 | one path with all four sorts of segments: its octets, its text, its hop counts, and what is left without confederation segments |
| `Vectors.CommunityVectors` | quagga-ldpd/bgpd/bgp_community.c:188-293 | the well-known communities by number and name, and the text of others as two halves |
| `Octets.BigEndian` | quagga-ldpd/lib/stream.c:344-580 | words and long words are written and read most significant octet first |
| `AsPathText.TextRoundTrip` | quagga-ldpd/bgpd/bgp_aspath.c:519-622 | the printed path is read back exactly when it has no empty and no adjacent AS_SEQUENCEs |
| `AsPathText.NormalIsTextual` | quagga-ldpd/bgpd/bgp_aspath.c:519-622 | normal paths without empty AS_SEQUENCEs are among those |
| `AsPathText.ExtendTextual` | quagga-ldpd/bgpd/bgp_aspath.c:1774-1838 | segments of such a path are put back together one by one as they are read |
| `AsPathText.PutAsns` | quagga-ldpd/bgpd/bgp_aspath.c:597-605 | the ASNs are printed with their separator, within the buffer |
| `AsPathText.MakeString` | quagga-ldpd/bgpd/bgp_aspath.c:519-622 | the string is the printed path, the buffer size computed first never truncates a write, and the length stays below it |
| `AsPathText.GetToken` | quagga-ldpd/bgpd/bgp_aspath.c:1709-1772 | the scanner finds the next token, skipping separators |
| `AsPathText.Str2Path` | quagga-ldpd/bgpd/bgp_aspath.c:1774-1838 | the loop builds the specified path, or none |
| `Encap.AttributeLength` | quagga-ldpd/bgpd/bgp_attr.c:2546-2549 | the length computed is that of the value written |
| `Encap.PutSubs` | quagga-ldpd/bgpd/bgp_attr.c:2577-2583 | the sub-TLVs are written in order |
| `Encap.PutAttribute` | quagga-ldpd/bgpd/bgp_attr.c:2504-2584 | the attribute is written with a one- or two-octet length, or not at all when empty or too long |
| `Encap.ReadSubs` | quagga-ldpd/bgpd/bgp_attr.c:1872-1933 | the reading loop computes the specified chain, refusing sub-TLVs that are cut off and octets left over |
| `AttrParse.SplitJoins` | quagga-ldpd/bgpd/bgp_attr.c:2080-2292 | a block is the concatenation of the attributes it splits into |
| `AttrParse.JoinSplits` | quagga-ldpd/bgpd/bgp_attr.c:2080-2292 | a concatenation of attributes splits in only one way |
| `AttrParse.ValueStores` | quagga-ldpd/bgpd/bgp_attr.c:1069-1700 | a parser sets no flag but its own, and if it does the attribute holds the value read, well formed |
| `AttrParse.LoopReads` | quagga-ldpd/bgpd/bgp_attr.c:2080-2292 | from any point of the loop on: no code repeats, flags come only from attributes read, and what was stored stays stored |
| `AttrParse.LoopAcceptsIff` | quagga-ldpd/bgpd/bgp_attr.c:2080-2292 | the loop accepts exactly the blocks tiled by acceptable attributes of pairwise different codes |
| `AttrParse.ParseProceeds` | quagga-ldpd/bgpd/bgp_attr.c:2057-2376 | when parsing proceeds the block is tiled exactly, codes are pairwise distinct, every flagged attribute is stored with its value, and the mandatory ones were there except for the graceful-restart empty update and the lone MP_UNREACH_NLRI |
| `AttrParse.TransitPassedOn` | quagga-ldpd/bgpd/bgp_attr.c:1938-1996 | what is kept for other neighbours is exactly the unknown optional transitive attributes of the block, in order, marked partial |
| `AttrParse.PassedOnAgain` | quagga-ldpd/bgpd/bgp_attr.c:1973-1977 | passing attributes on a second time changes nothing more |
| `AttrParse.ParsedTransit` | quagga-ldpd/bgpd/bgp_attr.c:1938-1996 | whatever was parsed, what is kept for other neighbours are whole unknown attributes of different codes that can be passed on unchanged |
| `AttrParse.LoopEncap` | quagga-ldpd/bgpd/bgp_attr.c:1821-1936 | tunnel type and sub-TLVs kept are those of the encapsulation attributes of the block |
| `AttrParse.InternalErrors` | quagga-ldpd/bgpd/bgp_attr.c:866-940 | on an internal session parsing either proceeds or fails, it never asks for withdrawal |
| `AttrParse.WithdrawnFor` | quagga-ldpd/bgpd/bgp_attr.c:866-940 | when parsing asks for withdrawal the session is external and the block holds such an attribute |
| `AttrParse.EncapArrives` | quagga-ldpd/bgpd/bgp_attr.c:1821-1936 | anywhere in a block, the encapsulation attribute written is read back, in both length forms |
| `AttrParse.EncapRoundTripIff` | quagga-ldpd/bgpd/bgp_attr.c:2504-2584 | for all chains and tunnel types, what bgp_packet_mpattr_tea sends is read back exactly when types and lengths fit an octet, the last value has two octets or more and the whole fits 16 bits; for an empty chain nothing is sent |
| `AttrParse.ShortEndIsRefused` | quagga-ldpd/bgpd/bgp_attr.c:1872-1933 | a chain that ends in an empty sub-TLV: the octets sent for it, and that they are refused |
| `AttrParse.ParseBlock` | quagga-ldpd/bgpd/bgp_attr.c:2057-2376 | the loop over the input computes the specified result, with all its error returns |
| `AttrAccept.OneSorts` | quagga-ldpd/bgpd/bgp_attr.c:866-1064 | for every attribute: it is accepted exactly when flags and value are as its code demands, or when it is minor and the session external; routes are withdrawn exactly for a malformed AS4_PATH marked partial, and wrong flags notified exactly for AS4_PATH, on external sessions |
| `AttrAccept.FlaggedCounts` | quagga-ldpd/bgpd/bgp_attr.c:1069-1700 | an attribute sets its flag exactly when it is known, right in flags and value, and neither a local preference from outside nor an empty list of communities |
| `AttrAccept.ReachReads` | quagga-ldpd/bgpd/bgp_attr.c:1610-1700 | MP_REACH_NLRI is read exactly when nexthop length and prefixes fit, with its family, nexthop and prefixes; a second nexthop counts only if it is link-local |
| `AttrAccept.LoopEffect` | quagga-ldpd/bgpd/bgp_attr.c:2080-2292 | a block is read to its end exactly when it is tiled by accepted attributes of different codes; then the flags are those of the attributes that count, each with its value stored |
| `AttrAccept.ParseStops` | quagga-ldpd/bgpd/bgp_attr.c:2080-2292 | a block is read up to the first attribute that is cut off, repeated or not accepted, and that attribute alone decides between error, notification and withdrawal |
| `AttrAccept.ParseCases` | quagga-ldpd/bgpd/bgp_attr.c:2080-2292 | every block is a sequence of accepted attributes, alone or with such a rest behind it |
| `AttrAccept.ParseMerges` | quagga-ldpd/bgpd/bgp_attr.c:1418-1522 | for every block of accepted attributes: it proceeds exactly when the mandatory ones are there and the path they stand for passes the checks; on an OLD session an AGGREGATOR other than AS_TRANS beside AS4_AGGREGATOR makes AS_PATH and AGGREGATOR count as they are, AS_TRANS makes AS4_AGGREGATOR count, AS4_AGGREGATOR alone sets AGGREGATOR without an address; without AS4 attributes, or on a 4-octet session, nothing changes |
| `AttrAccept.NexthopMerges` | quagga-ldpd/bgpd/bgp_attr.c:1650-1660 | the nexthop of every block that proceeds, in whatever order its attributes come: NEXT_HOP if it is there, else a multiprotocol nexthop of four octets, else none |
| `AttrAccept.UnreachReads` | quagga-ldpd/bgpd/bgp_attr.c:1754-1800 | MP_UNREACH_NLRI is read exactly when its family is there, with family and prefixes |
| `AttrAccept.AddedInFront` | quagga-ldpd/bgpd/bgp_aspath.c:1386-1430 | an AS put in front is one more hop before the path, in place of an empty first segment if there is one |
| `AttrAccept.AddedToConfed` | quagga-ldpd/bgpd/bgp_aspath.c:1386-1440 | a member AS goes into the confederation sequence in front, or into a new one |
| `AttrSend.ReachBack` | quagga-ldpd/bgpd/bgp_attr.c:2380-2472 | in every address family with a nexthop, MP_REACH_NLRI is read back with family, nexthop and prefixes |
| `AttrSend.MessageIs` | quagga-ldpd/bgpd/bgp_attr.c:2594-2957 | where lengths fit, what is written are the attributes sent, one after the other, and those passed on |
| `AttrSend.MessageSplits` | quagga-ldpd/bgpd/bgp_attr.c:2622-2954 | the message splits into the attributes sent and those passed on, of pairwise different codes and all acceptable |
| `AttrSend.MessageStored` | quagga-ldpd/bgpd/bgp_attr.c:2057-2376 | the receiver stores every attribute sent, sets no other flag, and keeps exactly the encapsulation and the unknown attributes passed on |
| `AttrArrive.PathFields` | quagga-ldpd/bgpd/bgp_attr.c:2628-2687 | the path arrives, reconciled with AS4_PATH if it went through AS_TRANS |
| `AttrArrive.ArrivingIff` | quagga-ldpd/bgpd/bgp_attr.c:2904-2924 | it arrives as it was sent exactly if the session has 4-octet ASNs or no confederation segment needs them |
| `AttrArrive.AggregatorFields` | quagga-ldpd/bgpd/bgp_attr.c:2734-2769 | AGGREGATOR arrives, large ASNs as AS_TRANS on an OLD session, and AS4_AGGREGATOR arrives exactly |
| `AttrArrive.CommunityFields` | quagga-ldpd/bgpd/bgp_attr.c:2771-2901 | canonical communities arrive, and of the extended communities those shown to the neighbour |
| `AttrArrive.ReflectionFields` | quagga-ldpd/bgpd/bgp_attr.c:2790-2829 | originator and cluster list of a reflected route arrive, with the own cluster in front |
| `AttrArrive.MungeRestores` | quagga-ldpd/bgpd/bgp_attr.c:1418-1522 | munging what was sent restores path and aggregator |
| `AttrArrive.AttributesArrive` | quagga-ldpd/bgpd/bgp_attr.c:2594-2957 | for every address family and sort of neighbour, every path within range and every aggregator AS, on 2- and 4-octet sessions: sending and then parsing, munging and checking gives back path, aggregator, origin, nexthop or MP_REACH_NLRI, MED, local preference, communities, originator, cluster list, encapsulation and unknown transitive attributes, and no flag that was not sent |
| `AttrArrive.CutListFound` | quagga-ldpd/bgpd/bgp_attr.c:2805-2829 | for all cluster lists, the neighbour finds the list cut to its length octet, and goes on reading in what was cut off |
| `AttrArrive.ClusterListIff` | quagga-ldpd/bgpd/bgp_attr.c:2805-2829 | a reflected route arrives with its cluster list exactly while the length fits one octet, whatever else the message carries |
| `AttrArrive.LongListIsRefused` | quagga-ldpd/bgpd/bgp_attr.c:2805-2829 | with 63 clusters and own cluster 10.0.0.1 the length octet is zero, the own cluster is taken for the next attribute, and the message is an error |
| `AttrArrive.SixtyThreeClusters` | quagga-ldpd/bgpd/bgp_attr.c:2805-2829 | one such route in full |
| `AttrArrive.OutgoingStarts` | quagga-ldpd/bgpd/bgp_attr.c:2630-2668 | a path sent out of the AS starts with the AS that the neighbour knows the sender by and has no confederation segment; inside the confederation it starts with the member AS |
| `AttrArrive.RouteArrives` | quagga-ldpd/bgpd/bgp_attr.c:2594-2957 | a route sent on passes the checks of the neighbour, is filed with the path sent, and what it carries of unknown attributes can be passed on again |
| `AttrTold.AttributesTold` | quagga-ldpd/bgpd/bgp_attr.c:2594-2957 | which attributes the neighbour has after reading, said of session, policy and route alone: local preference only nearby, originator and clusters only for reflected routes, extended communities that may leave the AS, AS4 attributes exactly for large ASNs on OLD sessions |
| `AttrTold.CommunitiesTold` | quagga-ldpd/bgpd/bgp_attr.c:2771-2901 | communities arrive whole; of the extended ones, all nearby and elsewhere those without the non-transitive bit |
| `AttrTold.ReflectionTold` | quagga-ldpd/bgpd/bgp_attr.c:2790-2829 | a reflected route arrives with who brought it into the AS, and the own cluster in front of those it has passed |
| `AttrTold.ReachTold` | quagga-ldpd/bgpd/bgp_attr.c:2380-2472 | for each address family: nexthop with or without route distinguisher, family and prefixes as they arrive |
| `AttrTold.EncapTold` | quagga-ldpd/bgpd/bgp_attr.c:2944-2949 | tunnel encapsulation goes with VPN and encapsulation routes only, and not if it is empty or too long |
| `AttrTold.QuadsInOrder` | quagga-ldpd/bgpd/bgp_attr.c:2771-2789 | communities are written and read four octets at a time, in order |
| `AttrTold.OctalsInOrder` | quagga-ldpd/bgpd/bgp_attr.c:2831-2901 | extended communities eight at a time |
| `AttrTold.ConfedsDeleted` | quagga-ldpd/bgpd/bgp_aspath.c:1592-1621 | aspath_delete_confed_seq takes away all confederation segments in front if the first is a sequence, and nothing otherwise |
| `AttrTold.OutgoingMeans` | quagga-ldpd/bgpd/bgp_attr.c:2630-2668 | the path sent, hop by hop, for every configuration: confederation, changed local AS with and without the own AS behind it, member AS inside a confederation, or unchanged |
| `AttrVectors.MessageVector` | quagga-ldpd/bgpd/bgp_attr.c:2594-2957 | the octets of one reflected route with 13 attributes on an OLD session |
| `AttrVectors.VectorArrives` | quagga-ldpd/bgpd/bgp_attr.c:2057-2376 | and what the neighbour reads from them, 4-octet ASNs included |
| `AttrVectors.EncapVector` | quagga-ldpd/bgpd/bgp_attr.c:2504-2584 | the octets of one tunnel encapsulation with two sub-TLVs |
| `AttrWrite.PutPath` | quagga-ldpd/bgpd/bgp_attr.c:2677-2681 | for every path, the attribute is written with its length filled in afterwards from the count returned |
| `AttrWrite.PutReach` | quagga-ldpd/bgpd/bgp_attr.c:2380-2489 | MP_REACH_NLRI is written with the nexthop of its address family, its length filled in when all is written |
| `AttrWrite.PutAttributes` | quagga-ldpd/bgpd/bgp_attr.c:2594-2957 | for all attributes, address families and neighbours: with room, exactly the message is written, in order, with lengths cut to the octets they have |
| `Fsm.ChangeKeeps` | quagga-ldpd/bgpd/bgp_fsm.c:396-432 | entering Clearing with nothing outstanding leaves exactly one completion to come |
| `Fsm.HandledFits` | quagga-ldpd/bgpd/bgp_fsm.c:434-940 | every handler leaves what the change to the next state needs |
| `Fsm.EventKeeps` | quagga-ldpd/bgpd/bgp_fsm.c:1108-1144 | bgp_event keeps the invariant and goes where the table says, stays, or deletes a temporary peer |
| `Fsm.EventCounts` | quagga-ldpd/bgpd/bgp_fsm.c:804-826 | from every state, a session is counted exactly when Established is entered |
| `Fsm.StepKeeps` | quagga-ldpd/bgpd/bgp_packet.c:1364-1456 | every step keeps the invariant exactly when it does not disturb the clearing of routes: no take-over after a collision in Clearing, and no routes queued for clearing while none are being cleared |
| `Fsm.RunKeeps` | quagga-ldpd/bgpd/bgp_fsm.c:82-1144 | for every run, the invariant holds throughout exactly when no step disturbs the clearing of routes |
| `Fsm.SessionLostUnseen` | quagga-ldpd/bgpd/bgp_packet.c:1364-1456 | two concrete runs from a new peer, a take-over in Clearing and the clearing of one address family, that end in Idle with a session dropped uncounted and nothing left that clears its routes |
| `Fsm.RunCounts` | quagga-ldpd/bgpd/bgp_fsm.c:804-826 | over every run, disturbed or not, established counts the entries into Established |
| `Fsm.ClearingEnds` | quagga-ldpd/bgpd/bgp_fsm.c:396-442 | once the clearing work is done, the peer is Idle as soon as the events ahead of the completion are dispatched |
| `Fsm.HandshakeInOrder` | quagga-ldpd/bgpd/bgp_fsm.c:943-1144 | over every run, the state tells how far the handshake has got since the session was last down: connection, then OPEN, then KEEPALIVE, each executed in order |
| `Fsm.NeverStranded` | quagga-ldpd/bgpd/bgp_fsm.c:82-1144 | after every undisturbed run and for every environment: some sequence of steps that the peer takes by itself leaves the state exactly when it is awake, that is in Clearing, or with a running timer or a queued event that leads out in this environment |
| `Fsm.SleepsForever` | quagga-ldpd/bgpd/bgp_fsm.c:214-307 | nothing that a peer does by itself while asleep leads out of its state |
| `Fsm.StirringMoves` | quagga-ldpd/bgpd/bgp_fsm.c:943-1144 | dispatching what is queued leads out of the state, directly or through the timers it starts |
| `Fsm.RefusedStart` | quagga-ldpd/bgpd/bgp_fsm.c:675-748 | a start that is refused leaves the peer asleep in every environment, until its timers are set again |
| `Fsm.EveryRun` | quagga-ldpd/bgpd/bgp_fsm.c:82-1144 | in every undisturbed run from a new peer: exactly one completion outstanding in Clearing and none outside Clearing and Deleted, established is dropped plus one exactly in Established and counts the entries, t_start only in Idle, t_connect only in Connect and Active, t_routeadv only in Established |
| `FsmEvents.EventLeads` | quagga-ldpd/bgpd/bgp_fsm.c:943-1144 | for every peer, event and environment, which event enters which state: Active exactly when a connection attempt fails in Connect or the connection is lost in OpenSent, and likewise for the six other states |
| `FsmEvents.EventStays` | quagga-ldpd/bgpd/bgp_fsm.c:943-1144 | which event keeps a peer in its state; every other one leads to Idle unless it enters one of those |
| `FsmEvents.EventQueues` | quagga-ldpd/bgpd/bgp_fsm.c:434-940 | what happens to queue, clearing work and the count of lost sessions: which event forgets what is queued, and what is queued in its place |
| `FsmEvents.EventInterval` | quagga-ldpd/bgpd/bgp_fsm.c:589-630 | which event doubles the start interval, which resets it, and that no other one changes it |
| `FsmEvents.EventTimers` | quagga-ldpd/bgpd/bgp_fsm.c:82-209 | which timers run after an event |
| `FsmEvents.StepLeads` | quagga-ldpd/bgpd/bgp_fsm.c:1108-1144 | a state is entered only by an event, by taking over a connection, or by deleting the peer |
| `FsmEvents.StartOutcome` | quagga-ldpd/bgpd/bgp_fsm.c:675-748 | what a start comes to, once the event it queues is dispatched: passive or failed in Active, connected in OpenSent, otherwise waiting in Connect |
| `FsmEvents.PassivePeer` | quagga-ldpd/bgpd/bgp_fsm.c:675-748 | over the run: a passive peer that may start is in Active after start timer and one dispatch, and a connection leads on to OpenSent |
| `FsmEvents.RunBacksOff` | quagga-ldpd/bgpd/bgp_packet.c:820-828 | over every run, the start interval is the initial one doubled for each back-off since the last reset, up to 120 |
| `Fsm.Session.AddEvent` | quagga-ldpd/bgpd/bgp_fsm.h:62-66 | an event is queued unless the peer is deleted |
| `Fsm.Session.SetTimers` | quagga-ldpd/bgpd/bgp_fsm.c:82-209 | the timers are set as the state demands |
| `Fsm.Session.ChangeStatus` | quagga-ldpd/bgpd/bgp_fsm.c:396-432 | the state changes, with clearing started or completed at once |
| `Fsm.Session.StopSession` | quagga-ldpd/bgpd/bgp_fsm.c:446-587 | the session is stopped |
| `Fsm.Session.Remove` | quagga-ldpd/bgpd/bgpd.c:1253-1268 | the peer is stopped, its routes cleared, its state Deleted |
| `Fsm.Session.WriteNotify` | quagga-ldpd/bgpd/bgp_packet.c:781-828 | the start interval is doubled up to its limit and a stop queued, or a fatal error |
| `Fsm.Session.TakeOverConnection` | quagga-ldpd/bgpd/bgp_packet.c:1366-1456 | the connection is taken over exactly in the states that bgp_open_receive admits, and the session stopped for it |
| `Fsm.Session.StartSession` | quagga-ldpd/bgpd/bgp_fsm.c:675-748 | a connection is started, and what comes of it queued |
| `Fsm.Session.StopWithNotify` | quagga-ldpd/bgpd/bgp_fsm.c:608-630 | the session is stopped, or a temporary peer deleted |
| `Fsm.Session.Handle` | quagga-ldpd/bgpd/bgp_fsm.c:434-940 | each handler changes the fields as specified |
| `Fsm.Session.HandleEvent` | quagga-ldpd/bgpd/bgp_fsm.c:1108-1144 | the fields change as the value-level step says, and the invariant is kept |
| `DampLists.PushLinked` | quagga-ldpd/bgpd/bgp_damp.c:65-77 | adding a record in front of a list keeps all lists well linked and every record on exactly one |
| `DampLists.PullLinked` | quagga-ldpd/bgpd/bgp_damp.c:80-89 | deleting one from the list it is on keeps that, too |
| `Damp.DecayOrders` | quagga-ldpd/bgpd/bgp_damp.c:92-106 | with a falling table, a smaller penalty after a longer time decays to no more |
| `Damp.DecayIs` | quagga-ldpd/bgpd/bgp_damp.c:92-106 | a penalty decays to the whole part of its product with the factor for the interval, to nothing beyond the table, and not at all at once |
| `Damp.DecayBack` | quagga-ldpd/bgpd/bgp_damp.c:92-106 | when the clock has gone back by an interval or more, nothing is left of a penalty |
| `Damp.IndexBelow` | quagga-ldpd/bgpd/bgp_damp.c:48-62 | a penalty below the reuse limit has the first place, or the last one if it is a whole step below |
| `Damp.IndexBracket` | quagga-ldpd/bgpd/bgp_damp.c:48-62 | the place of a penalty in the table of offsets is the whole part of its excess over the reuse limit, in steps of the scale, as far as the table goes |
| `Damp.DelayOrders` | quagga-ldpd/bgpd/bgp_damp.c:48-62 | with a rising table of offsets below the size of the wheel, a larger penalty waits at least as long |
| `Damp.IndexOrders` | quagga-ldpd/bgpd/bgp_damp.c:48-62 | of two suppressed routes the one with the larger penalty comes no earlier in the table of offsets |
| `Damp.RelistKeeps` | quagga-ldpd/bgpd/bgp_damp.c:65-89 | moving a record to the list that its new contents tell keeps the invariant |
| `Damp.WithdrawKeeps` | quagga-ldpd/bgpd/bgp_damp.c:177-258 | bgp_damp_withdraw keeps every record on exactly one well-linked list, the one its flag tells, and every penalty at most max(ceiling, 1000) |
| `Damp.UpdateKeeps` | quagga-ldpd/bgpd/bgp_damp.c:261-298 | so does bgp_damp_update |
| `Damp.ScanKeeps` | quagga-ldpd/bgpd/bgp_damp.c:301-347 | so does bgp_damp_scan |
| `Damp.ForgetKeeps` | quagga-ldpd/bgpd/bgp_damp.c:350-372 | so does bgp_damp_info_free |
| `DampTimer.FreeRun` | quagga-ldpd/bgpd/bgp_damp.c:152-164 | what freeing a stretch of popped records does to the memory, link by link |
| `DampTimer.FreedThenKept` | quagga-ldpd/bgpd/bgp_damp.c:152-169 | a record kept after one was freed leaves the lists broken, whatever they are taken to be |
| `DampTimer.EndWithoutRoom` | quagga-ldpd/bgpd/bgp_damp.c:152-164 | records freed at the end without room leave a list broken |
| `DampTimer.TickKeeps` | quagga-ldpd/bgpd/bgp_damp.c:110-174 | a calm tick keeps every record on exactly one well-linked list: it frees nothing, or only at the end of the bucket and with room |
| `DampTimer.TickKeepsOnlyCalm` | quagga-ldpd/bgpd/bgp_damp.c:110-174 | and no other tick does |
| `DampTimer.QuietIsHarmless` | quagga-ldpd/bgpd/bgp_damp.c:110-174 | a tick that frees nothing is calm |
| `DampRuns.RunKeeps` | quagga-ldpd/bgpd/bgp_damp.c:110-372 | throughout every run with calm ticks each record is on exactly one well-linked list and penalties are bounded |
| `DampRuns.RunKeepsOnlyCalm` | quagga-ldpd/bgpd/bgp_damp.c:110-372 | and throughout no other run |
| `DampRuns.PlacedWaits` | quagga-ldpd/bgpd/bgp_damp.c:48-62 | wherever the wheel stands, a penalty is placed as many ticks ahead as its table entry says |
| `DampRuns.WithdrawNumbers` | quagga-ldpd/bgpd/bgp_damp.c:177-258 | what a withdrawal does to penalty, flap count, times and flag; a route it puts on the wheel, or moves there, waits for exactly the ticks that its penalty says |
| `DampRuns.UpdateNumbers` | quagga-ldpd/bgpd/bgp_damp.c:261-298 | what an update does to all records: the penalty decays, and the record is forgotten, in use again, or otherwise as it was |
| `DampRuns.ScanNumbers` | quagga-ldpd/bgpd/bgp_damp.c:301-347 | what a scan does to all records: a suppressed one is freed at the reuse limit after the maximum time, one in use decays or is forgotten |
| `DampRuns.ReuseOnTime` | quagga-ldpd/bgpd/bgp_damp.c:110-258 | over every run with calm ticks, whatever the offset: a route that a withdrawal puts on the wheel is evaluated by the tick that its penalty says, unless it is touched before |
| `DampRuns.TickEvaluates` | quagga-ldpd/bgpd/bgp_damp.c:110-174 | a suppressed record in the bucket at the offset is evaluated by the tick, whatever else the tick does: forgotten, in use again, or waiting on for the ticks that its decayed penalty says |
| `DampRuns.TickWaits` | quagga-ldpd/bgpd/bgp_damp.c:121-127 | any other tick leaves it alone and brings its turn one tick closer |
| `DampRuns.WheelTurns` | quagga-ldpd/bgpd/bgp_damp.c:110-174 | a suppressed record that is left alone is evaluated within reuse_list_size ticks, by the tick that follows Waiting others, with its penalty decayed: freed, used again, or back on the wheel |
| `DampRuns.FlapsAccumulate` | quagga-ldpd/bgpd/bgp_damp.c:177-298 | n withdrawals in one instant, announced in between, add up to the ceiling, and the route is suppressed exactly if a sum reaches the suppress value; where one flap is forgotten at once, every flap is the first |
| `DampRuns.Hysteresis` | quagga-ldpd/bgpd/bgp_damp.c:110-372 | for every route, recorded or not: only a withdrawal that reaches the suppress value suppresses it; only a penalty below the reuse limit, the maximum time, or forgetting the route ends it |
| `DampRuns.NoReuseListIsLost` | quagga-ldpd/bgpd/bgp_damp.c:110-174 | a run from nothing with regular ticks and scans at any of them: a route flaps n times, another once, and the tick that frees the first loses the no-reuse list with the other on it, for every configuration in which n flaps are forgotten by the time of their turn |
| `DampRuns.HalfLifeTenLoses` | quagga-ldpd/bgpd/bgp_damp.c:375-430 | with a half-life of ten minutes and the defaults twelve flaps meet that condition |
| `DampInPlace.Damping.Add` | quagga-ldpd/bgpd/bgp_advertise.h:103-110 | the links and the head change as specified |
| `DampInPlace.Damping.Remove` | quagga-ldpd/bgpd/bgp_advertise.h:112-120 | the links or the head change as specified |
| `DampInPlace.Damping.FreeRecord` | quagga-ldpd/bgpd/bgp_damp.c:350-372 | the record leaves the list that its flag tells |
| `DampInPlace.Damping.WithdrawRoute` | quagga-ldpd/bgpd/bgp_damp.c:177-258 | the objects change as the value-level operation says, and the answer tells suppressed routes |
| `DampInPlace.Damping.UpdateRoute` | quagga-ldpd/bgpd/bgp_damp.c:261-298 | the objects change as the value-level operation says, and the answers tell suppressed and forgotten routes |
| `DampInPlace.Damping.ScanRoute` | quagga-ldpd/bgpd/bgp_damp.c:301-347 | the objects change as the value-level operation says, and the answers tell routes to announce and forgotten ones |
| `DampInPlace.Damping.Evaluate` | quagga-ldpd/bgpd/bgp_damp.c:130-171 | one popped record is evaluated as specified |
| `DampInPlace.Damping.ReuseTimer` | quagga-ldpd/bgpd/bgp_damp.c:110-174 | the loop over the popped list does what the value-level tick does, for calm and other ticks |
| `Intern.AddRefKeeps` | quagga-ldpd/bgpd/bgp_aspath.c:634-651 | taking a reference to a part keeps the counts and the table right, with the reference now held |
| `Intern.DropRefKeeps` | quagga-ldpd/bgpd/bgp_aspath.c:340-357 | giving one up keeps them right; the last one takes the part out of the table |
| `Intern.LookupFinds` | quagga-ldpd/bgpd/bgp_attr.c:674-676 | the hash look-up finds an equal attribute whenever there is one |
| `Intern.InternKeeps` | quagga-ldpd/bgpd/bgp_attr.c:626-679 | bgp_attr_intern keeps every count right and returns an entry equal to its argument, a new one only if none was equal |
| `Intern.UninternKeeps` | quagga-ldpd/bgpd/bgp_attr.c:773-830 | bgp_attr_unintern gives back exactly the references that bgp_attr_intern took |
| `Intern.KeyTells` | quagga-ldpd/bgpd/bgp_attr.c:474-520 | the hash key of attributes with extra part tells exactly their numbers and the contents of their parts, and takes no notice of flags and encapsulation |
| `Intern.PlainKeyTells` | quagga-ldpd/bgpd/bgp_attr.c:474-520 | so does that of attributes without |
| `InternHandles.EncapSameSets` | quagga-ldpd/bgpd/bgp_attr.c:271-318 | encapsulations compare equal exactly when they have the same sub-TLVs, in whatever order and number |
| `InternHandles.InternContents` | quagga-ldpd/bgpd/bgp_attr.c:626-679 | the address that interning gives stands for the contents that were passed |
| `InternHandles.HandlesCount` | quagga-ldpd/bgpd/bgp_attr.c:626-833 | over every run, callers hold each interned attribute as often as it is referenced, and it is there exactly until the last of them gives it up |
| `InternHandles.ContentsStay` | quagga-ldpd/bgpd/bgp_attr.c:626-833 | over every run, as long as an attribute is interned its contents are what they were, whatever else is interned and given up |
| `InternRuns.EqualInternOnce` | quagga-ldpd/bgpd/bgp_attr.c:626-679 | in every balanced store, interning gives the address of an interned attribute exactly when the contents are equal, wherever the parts came from |
| `InternRuns.StepKeeps` | quagga-ldpd/bgpd/bgp_attr.c:626-830 | every step keeps the counts right and the tables in order |
| `InternRuns.EveryRun` | quagga-ldpd/bgpd/bgp_attr.c:626-830 | over every run: the count of a part is the sum of the counts of the attributes using it plus the references held outside, a part is in its table exactly while its count is positive, and no two interned attributes have equal contents |
| `InternInPlace.CompareEncap` | quagga-ldpd/bgpd/bgp_attr.c:271-312 | encap_same decides equality of the chains as sets |
| `InternInPlace.Tables.Take` | quagga-ldpd/bgpd/bgp_aspath.c:634-651 | the tables change as specified and the interned object is returned |
| `InternInPlace.Tables.Drop` | quagga-ldpd/bgpd/bgp_aspath.c:340-357 | the tables change as specified |
| `InternInPlace.Tables.Find` | quagga-ldpd/bgpd/bgp_attr.c:674-676 | the loop over the entries finds what the specification finds |
| `InternInPlace.Tables.InternAttribute` | quagga-ldpd/bgpd/bgp_attr.c:626-679 | the tables change as specified, and the invariant holds again |
| `InternInPlace.Tables.UninternAttribute` | quagga-ldpd/bgpd/bgp_attr.c:773-830 | the tables change as specified, and the invariant holds again |
| `Community.UniqSort` | quagga-ldpd/bgpd/bgp_community.c:162-186 | the result is the strictly ascending list of the same set |
| `Community.InsertUniqStrict` | quagga-ldpd/bgpd/bgp_ecommunity.c:61-100 | insertion into a strictly ascending list keeps it so and adds just the value |
| `Community.AddVal` | quagga-ldpd/bgpd/bgp_ecommunity.c:61-100 | the value is inserted in place at its position, the rest shifted, or nothing changes if it is there |
| `Community.ExtUniqSort` | quagga-ldpd/bgpd/bgp_ecommunity.c:102-121 | the result is the strictly ascending list of the same set |
| `Sorting.SortUniqDecides` | quagga-ldpd/bgpd/bgp_community.c:444-456 | comparing the results of uniq_sort decides equality of the sets |
| `Community.Match` | quagga-ldpd/bgpd/bgp_community.c:413-441 | for all lists, one pass decides whether the second is a subsequence of the first |
| `Community.StrictSubsequence` | quagga-ldpd/bgpd/bgp_community.c:413-441 | of canonical lists, the subsequences are those included |
| `Community.OrderMatters` | quagga-ldpd/bgpd/bgp_community.c:413-441 | on other lists inclusion is not enough |
| `Community.OneBack` | quagga-ldpd/bgpd/bgp_community.c:485-579 | the text of one value is read back, well-known names and AS:VAL alike |
| `Community.TextCanonical` | quagga-ldpd/bgpd/bgp_community.c:581-620 | the text of a non-empty list is read as the canonical list of its values, although the last token is added twice |
| `Community.TextRoundTrip` | quagga-ldpd/bgpd/bgp_community.c:188-293 | a list comes back from its text exactly if it is canonical and not empty |
| `Community.ToText` | quagga-ldpd/bgpd/bgp_community.c:188-293 | the text is written within the buffer measured first |
| `Community.NextToken` | quagga-ldpd/bgpd/bgp_community.c:485-579 | the scanner finds the specified token |
| `Community.FromText` | quagga-ldpd/bgpd/bgp_community.c:581-620 | the loop computes the specified list, or none |

## Left out

- Sockets, system calls, timers as such, logging, debugging, SNMP, the command-line interface, memory exhaustion.
- The hash tables, FIFOs, work queues and linked lists of lib/: maps and sequences stand for them. `hash_get` is a search under equal keys.
- 16-bit lengths of AS path segments and strings: lengths are unbounded, wrap-around is not modelled.
- `bgp_mp_dmed_deselect`, `bgp_info_mpath_aggregate_update` and the attribute kept for an aggregated multipath.
- The separate `bgp_info_mpath` record: its fields are fields of the path, with one that tells whether the record is there.
- Adj-RIB-In, `bgp_adj_out_set` without an attribute, and which FIFO `bgp_write_packet` serves first: the theorems hold for every order.
- The octets of UPDATE packets in `AdjOut`: only what fits is modelled, through the sizes of prefixes.
- PackedArrives: one direction only; where three sequences are packed, the octets behind the wrong length are taken for further segments, and what comes of that depends on the ASNs.
- `aspath_prepend`, `aspath_filter_exclude`, private-AS removal and AS path access lists.
- AttributesArrive: for the address families with a nexthop, whose IPv6 nexthop is one address or two, as `bgp_announce_check` leaves it; the prefixes in MP_REACH_NLRI are octets. MP_UNREACH_NLRI is only read.
- `aspath_delete_confed_seq` cuts the stored path itself when `bgp_packet_attribute` has not copied it; here paths are values.
- The contents of NOTIFICATION messages, and how `bgp_update_receive` acts on the result of parsing.
- Attribute code 19 lies one past the table of required flags that the code indexes with it; the model requires no flags for it.
- The graceful-restart timers. Whether a peer that a disturbed completion reached moves on: NeverStranded is about undisturbed runs, in an environment that stays as it is.
- The chains of advertisements that share an attribute are sequences, although bgpd links them through the advertisements.
- `cluster_intern` copies its argument, the other interning functions do not; here a part that is found is freed and one that is not becomes the interned one.
- `bgp_damp_parameter_set`: the decay factors are any numbers from 0 to 1 and the reuse index any table of non-negative offsets. What the timer does to routes besides their damping records, `bgp_damp_info_clean`, and enabling or disabling damping.
- Sub-objects are freed as values: use of freed memory is not modelled, except that freed damping records may not be on a list.
- `community_merge`, `community_delete`, community lists, the text of extended communities, and `ecommunity_match`.
