# Verified models of ToCloud9 components

ToCloud9 splits a game server into a cluster of Go services. This project models seven of their cores in Dafny and
proves what they are for.

| files | component |
|---|---|
| `Bytes`, `PacketCodec` | bytes, little-endian words, bit counting; the packet reader and writer |
| `UpdateObject`, `UpdateGrammar`, `UpdateObjectParser` | the update-object parser: as functions of the stream, the wire grammar it reads, and the loops themselves |
| `Framing`, `PacketsReader` | frames in a byte stream; the resumable reader with its header cipher |
| `AuctionHouse`, `AuctionBooks`, `AuctionPlayers`, `AuctionEscrow`, `AuctionLosses`, `AuctionBids`, `AuctionEvents`, `AuctionService`, `ExpirySweep` | the auction house: operations, conservation, every player's account, what failures do to money, items and the event log, bids, replication, the service object, many instances on one table |
| `ChatChannel`, `ChatChannelRuns`, `ChatChannelMembers`, `ActiveChannel` | channel ownership, the write-through member table, and who is let in |
| `UpdatePipeline`, `UpdatesBarrier`, `StatsTracking`, `StatsFromPackets` | character updates from packet to record |
| `WorkerPool`, `HealthChecker` | the bounded-channel pool of the health checker and the metrics consumer |
| `GroupStats`, `GroupSession`, `ChannelIndex` | what the client knows of its group; who listens to which chat channel |

`dafny verify dfyconfig.toml` checks everything.

## How the models are built

* Code that works by updating things in place is a class or a method with loops. Its `ensures` equates the new state
  with a function of the old one, and the lemmas are about that function, over all runs.
* Everything outside is an argument: the outcome of each database write, mail and publish, the time, the pieces in
  which bytes arrive, and the order in which Go walks a map (an arbitrary element is picked each time).
* Integers are unbounded, and every wrap-around, narrowing and signed conversion of the source is written out.
* Locks become atomicity: one operation of an object is one step. The exceptions are the expiry sweep, whose steps are
  single SQL statements, and the worker pool, whose steps are single channel operations.

## Where the code does not do what one would expect

Each of these is proved together with its exact condition.

* A buyout by the standing high bidder refunds a bid that was only deducted as a difference: the house pays out the old
  bid as a surplus. Money is conserved by a run if and only if no such buyout occurs (`MoneyConserved`,
  `SelfBuyoutCreatesMoney`).
* Cancels and buyouts mail before they delete and do not look at the rows-affected count. Without failures an auction is
  paid out twice if and only if such a DELETE found no row (`PaidTwiceIffSaleFoundNoRow`, `PaidTwiceHappens`), which is
  so if and only if another DELETE came first (`MissesIffTakenBetween`); with failures the number of payouts is counted
  exactly (`PayoutsCounted`).
* A sweep whose DELETE works but whose reply is lost settles nothing (`AtMostOnce`, `LostReplyPaysNobody`), and one whose SELECT or DELETE fails drops
  the candidate from its cache, which nobody comes back to if no other instance knows it (`FailingSelectAbandons`,
  `FailingDeleteAbandons`, `AbandonedForever`, `AbandonedHappens`).
* The sweep settles on the row it selected: a settlement is based on the deleted row if and only if no bid on the
  auction came between that sweep's own SELECT and DELETE (`SettlesCurrentRowIffNoBidBetween`, `LateBidIsMissed`).
* A bid whose write fails stays in the cache unpaid, and a buyout whose delete fails has paid, shipped and refunded. The
  changes of the balance, of the items and of the log are proved for every pattern of failures, each with its exact
  condition and a failing case (`StepDrifts`, `UnwrittenBidIsOwed`, `ItemsDrift`, `FailedDeleteDoublesItem`,
  `FollowedIffAnnounced`, `UnannouncedBidSeparates`).
* The client's four-byte opcode is narrowed to 16 bits, so frames come back unchanged if and only if all opcodes fit
  (`FramesRoundTrip`, `WideOpcodeIsLost`).
* A call of `Next` after a read error within a payload returns that payload under opcode 0 and size 0; a frame cut in two
  arrives intact if and only if the error came before the header was complete (`ReadAcrossError`).
* The house cut and the minimal raise are computed in 32 bits and are the floored percentage only up to a limit
  (`CutIsExact`, `OutBidIsFivePercent`).
* A failing `SetOwner` is rolled back in memory only. The table can be left without an owner
  (`HalfWrittenTransferLosesTheOwner`), and `WriteThrough` says for every operation which failures separate the table
  from memory.
* The friends cache loses an area that meets an earlier zone in the buffer (`FriendMergesExactly`, `LoneAreaIsLost`);
  the producers never send one (`RecordsFollowSessions`).
* A full batch of updates holds 1002 entries, not 1000 (`SendInOrder`, `LargeSendsAreFull`).
* More than 200 + P objects block the health checker for good (`CompletesIffFits`, `DeadlockShape`).
* Comments in `groups.go` say that an incomplete full answer shows a member as dead; `FullAnswerErasesTheRest` gives the
  exact loss, `ClientShowsTheCache` that the code avoids it.

## Model

| member | source | states |
|---|---|---|
| `Words.LERoundTrip` | apps/gateway/packet/reader.go:53-61 | a word of n bytes, least significant first, reads back as the number written |
| `Words.BytesAreDigits` | apps/gateway/packet/reader.go:53-61 | byte i of a word is its digit number i to the base 256 |
| `Words.HasIffCommonBit` | apps/gateway/packet/update-object.go:225-285 | a flag test succeeds exactly when the two words have a bit in common |
| `Words.BitIsDigit` | apps/gateway/packet/update-object.go:187-191 | bit i of a mask is the last binary digit of the mask shifted right by i |
| `Words.ClearLowest` | apps/gateway/packet/update-object.go:187-189 | m AND (m - 1) removes exactly the lowest set bit, so the count of ones drops by one |
| `PacketCodec.PackedGuidRoundTrip` | apps/gateway/packet/writer.go:135-155 | for every GUID and any bytes after it, reading the packed form returns the GUID and leaves exactly those bytes |
| `PacketCodec.MarksCountBytes` | apps/gateway/packet/writer.go:135-155 | the mark byte announces as many bytes as the GUID has nonzero bytes |
| `PacketCodec.MarkBits` | apps/gateway/packet/writer.go:135-155 | bit i of the mark is set exactly when byte i of the GUID is not zero |
| `PacketCodec.FailuresStick` | apps/gateway/packet/reader.go:33-188 | a read past the end gives zero and an error, every later read too; a string without NUL ends with the input |
| `PacketCodec.TruncatedGuidFails` | apps/gateway/packet/reader.go:146-175 | a packed GUID fails exactly when fewer bytes are left than its mark has bits |
| `PacketCodec.PackedGuidIsShortest` | apps/gateway/packet/reader.go:146-175 | whatever input ReadGUID accepts for a GUID, it consumed at least the length of the packed form |
| `PacketCodec.FieldRoundTrip` | apps/gateway/packet/writer.go:42-155 | any typed field reads back unchanged before any tail: unsigned and two's-complement integers, NUL-free strings, GUIDs |
| `PacketCodec.FieldsRoundTrip` | apps/gateway/packet/reader.go:23-175 | any list of fields reads back in order and leaves exactly the tail |
| `PacketCodec.Reader.Uint` | apps/gateway/packet/reader.go:33-101 | the word at the position, or 0 and an error; an earlier error freezes the reader; the position never goes back |
| `PacketCodec.Reader.Skip` | apps/gateway/packet/reader.go:177-188 | skips n bytes or fails; an earlier error freezes the reader |
| `PacketCodec.Reader.ReadGUID` | apps/gateway/packet/reader.go:146-175 | the loop over the mark byte computes the packed-GUID function of the remaining bytes |
| `PacketCodec.Reader.String` | apps/gateway/packet/reader.go:113-136 | the bytes before the first NUL; the end of input ends the string without an error |
| `PacketCodec.Writer.GUID` | apps/gateway/packet/writer.go:135-155 | the loop over the bytes appends exactly the mark and the nonzero bytes |
| `UpdateObject.MaskSkipRefinesDecode` | apps/gateway/packet/update-object.go:187-216 | on any bytes the bit loop ends where skipping popcount words ends, and fails exactly when that fails |
| `UpdateObject.SkipRefinesDecode` | apps/gateway/packet/update-object.go:162-218 | on any bytes, skip mode and target mode of parseValuesBlock succeed alike and leave the reader at the same place |
| `UpdateGrammar.BitLoopVisitsSetBits` | apps/gateway/packet/update-object.go:187-216 | on any bytes the bit loop reads one word per set bit of the mask, in ascending bit order |
| `UpdateGrammar.CountIndices` | apps/gateway/packet/update-object.go:165-171 | a mask has as many set-bit indices as its count of ones |
| `UpdateGrammar.ValuesRoundTrip` | apps/gateway/packet/update-object.go:162-218 | every values block, with any masks and words, parses, is consumed exactly, and changes the record only for the target |
| `UpdateGrammar.FieldAtRank` | apps/gateway/packet/update-object.go:193-215 | after a block each tracked field is the value word at the rank of its bit among the masks' set bits, and is kept when its bit is clear |
| `UpdateGrammar.SplineBits` | apps/gateway/packet/update-object.go:63-67 | the parser's spline flags are bits 15 to 17 |
| `UpdateGrammar.MoveBits` | apps/gateway/packet/update-object.go:50-56 | its movement flags are bits 9, 12, 21 or 25, 26 and 27 |
| `UpdateGrammar.Move2Bits` | apps/gateway/packet/update-object.go:58-59 | its second movement flags are bits 5 and 10 |
| `UpdateGrammar.UpdateBits` | apps/gateway/packet/update-object.go:37-47 | its update flags are bits 1 to 9 |
| `UpdateGrammar.SkipsSpline` | apps/gateway/packet/update-object.go:291-310 | spline data with any flags, given by bit number, and any number of nodes is consumed exactly |
| `UpdateGrammar.SkipsLiving` | apps/gateway/packet/update-object.go:225-256 | the living part with any movement flags, given by bit number, transport and spline is consumed exactly |
| `UpdateGrammar.SkipsMovement` | apps/gateway/packet/update-object.go:222-288 | a movement block with any combination of flags, given by bit number, is consumed exactly |
| `UpdateGrammar.BlockRoundTrip` | apps/gateway/packet/update-object.go:104-122 | each kind of block parses to its own effect and leaves exactly what follows it |
| `UpdateGrammar.MessageRoundTrip` | apps/gateway/packet/update-object.go:94-128 | every well-formed message parses without error, consumes exactly its bytes, and yields the in-order fold of the blocks that carry the character's GUID |
| `UpdateGrammar.UnknownTypeIsReported` | apps/gateway/packet/update-object.go:104-124 | after any well-formed blocks a type above 5 is reported with its block number, and nothing behind it is read |
| `UpdateGrammar.MissingBlocksAreReported` | apps/gateway/packet/update-object.go:98-128 | a message that claims more blocks than it holds ends in an error |
| `UpdateGrammar.UnsentFieldIsKept` | apps/gateway/packet/update-object.go:94-218 | a field no block sends stays unset |
| `UpdateGrammar.LastWriteWins` | apps/gateway/packet/update-object.go:94-218 | a field has the value of the last block that sends it |
| `UpdateObjectParser.DecodeBits` | apps/gateway/packet/update-object.go:187-216 | the loop that clears mask bits computes the decoding function, with work bounded by bytes consumed |
| `UpdateObjectParser.ParseValuesBlock` | apps/gateway/packet/update-object.go:162-218 | both modes compute their functions of the stream, keep errors, and do work bounded by bytes consumed |
| `UpdateObjectParser.SkipSplineData` | apps/gateway/packet/update-object.go:291-310 | computes the spline function of the stream |
| `UpdateObjectParser.SkipMovementBlock` | apps/gateway/packet/update-object.go:222-288 | computes the movement function of the stream |
| `UpdateObjectParser.SkipGuidList` | apps/gateway/packet/update-object.go:117-121 | the GUID loop stops at the first error, so a claimed count costs no more than the bytes there are |
| `UpdateObjectParser.ParseUpdateObjectStatsForGUID` | apps/gateway/packet/update-object.go:94-128 | returns what the parsing function returns, errors included, and the outer loop runs at most as often as there are bytes, whatever count is claimed |
| `Framing.JthFrame` | apps/gateway/sockets/packets-reader.go:42-97 | the j-th frame starts where the earlier ones end and its header is read with the j-th share of the keystream |
| `Framing.KthHeaderMeetsKthSlice` | apps/gateway/sockets/packets-reader.go:57-59 | byte i of the k-th header is combined with keystream byte u + k times the header size + i |
| `Framing.XorOfBits` | apps/gateway/sockets/packets-reader.go:57-59 | bit i of the combination is set exactly when one of the two bits is |
| `Framing.HeaderBytes` | apps/gateway/sockets/packets-reader.go:61-71 | two big-endian bytes of size that count the opcode, then the opcode low byte first, for both opcode sizes |
| `Framing.TooLargeIffTooSmall` | apps/gateway/sockets/packets-reader.go:61-65 | the only packets refused as too large are those whose size does not cover the opcode |
| `Framing.SplitAllUndoesJoin` | apps/gateway/sockets/packets-reader.go:42-97 | splitting the concatenation of any frames returns those frames as the reader shows them |
| `Framing.CryptTwice` | apps/gateway/sockets/packets-reader.go:57-59 | applying the same keystream slice twice gives back the header |
| `Framing.HeaderRoundTrip` | apps/gateway/sockets/packets-reader.go:56-71 | an encrypted header yields its payload size and the low 16 bits of its opcode; the opcode itself if and only if it is below 0x10000 |
| `Framing.FramesRoundTrip` | apps/gateway/sockets/packets-reader.go:42-97 | any list of frames written through the cipher is read back with opcodes narrowed to 16 bits; as the same list if and only if every opcode is below 0x10000 |
| `Framing.WideOpcodeIsLost` | apps/gateway/sockets/packets-reader.go:67-71 | the failing case: a client header for opcode 0x10000 reads as opcode 0 |
| `PacketsReader.PacketsReader.DecryptHeader` | apps/gateway/sockets/packets-reader.go:57-59 | byte i is combined with keystream byte u + i, and the position moves on by exactly the header's length |
| `PacketsReader.PacketsReader.Fill` | apps/gateway/sockets/packets-reader.go:47-86 | however the bytes come, a buffer is filled with the next bytes of the stream and no more are taken; when a read fails, what came before it is kept |
| `PacketsReader.PacketsReader.ReceivePayload` | apps/gateway/sockets/packets-reader.go:72-95 | the payload is the next bytes of the stream in a new buffer, and nothing past it is consumed |
| `PacketsReader.PacketsReader.Next` | apps/gateway/sockets/packets-reader.go:42-97 | in a call that starts between packets or, after an error, within a header: however the stream is cut into reads, it returns the first frame and takes no byte past it, or reports an oversized packet, or fails for lack of bytes in a state that holds all of them |
| `PacketsReader.PacketsReader.NextWithinPayload` | apps/gateway/sockets/packets-reader.go:42-97 | in a call that starts after a header: completes the payload in the buffer that is there, and reports opcode 0 and size 0 |
| `PacketsReader.ReadAcrossError` | apps/gateway/sockets/packets-reader.go:42-97 | a frame interrupted by a read error arrives with its payload, and with its opcode and size if and only if the error came before the header was complete |
| `PacketsReader.ReadAll` | apps/gateway/sockets/packets-reader.go:42-97 | the packets of a connection are the frames of its stream, payloads handed out earlier still hold their frames at the end, and the keystream position has moved by one header for each packet, and one more if an unfinished packet's header was complete |
| `AuctionHouse.CutNeverExceedsBid` | apps/auctionhouse/service/auction.go:769-776 | the cut is at most the bid for every 32-bit bid, overflow included |
| `AuctionHouse.CutIsExact` | apps/auctionhouse/service/auction.go:769-776 | the cut is the floored percentage if and only if the bid is at most 286331153 (neutral) or 858993459 (faction) |
| `AuctionHouse.CutPerHouse` | apps/auctionhouse/service/auction.go:769-776 | house 7 takes 15 percent up to 286331153, any other 5 percent up to 858993459, rounded down |
| `AuctionHouse.OutBidIsFivePercent` | apps/auctionhouse/service/auction.go:761-767 | the minimal raise is five percent rounded down, at least 1, up to 858993459; at least five percent if and only if the bid is at most that |
| `AuctionBooks.StepConserves` | apps/auctionhouse/service/auction.go:173-345 | each operation keeps cache and table equal and bids sound, and changes the balance by exactly the self-buyout surplus |
| `AuctionBooks.BuyLosesSurplus` | apps/auctionhouse/service/auction.go:247-302 | a buyout balances, short of the old bid when the buyer was the standing high bidder |
| `AuctionBooks.MoneyConserved` | apps/auctionhouse/service/auction.go:133-345 | over every failure-free run within int32: money taken equals refunds, payouts, cuts, kept deposits, fees and holdings if and only if no standing high bidder buys out; the shortfall is the sum of their old bids |
| `AuctionBooks.SelfBuyoutCreatesMoney` | apps/auctionhouse/service/auction.go:247-274 | a concrete run that pays out 50 more than it took |
| `AuctionBooks.ItemsConserved` | apps/auctionhouse/service/auction.go:133-345 | over every such run each listed item is on offer or in exactly one mail, once per listing |
| `AuctionBooks.AcceptedBidsRise` | apps/auctionhouse/service/auction.go:173-213 | an accepted bid exceeds the last one and, while five percent can be computed, by at least one and five percent; sellers cannot bid |
| `AuctionPlayers.RefusedExactlyWhen` | apps/auctionhouse/service/auction.go:173-205 | each refusal, the acceptance and the buyout of a bid as an if-and-only-if, in the order of the checks |
| `AuctionPlayers.OtherReplies` | apps/auctionhouse/service/auction.go:125-171 | the replies to a listing and to a cancellation, for every outcome of the write |
| `AuctionPlayers.BuyoutDelivers` | apps/auctionhouse/service/auction.go:247-302 | a buyout pays the seller price and deposit less the cut, ships to the buyer, and refunds the player who was outbid |
| `AuctionPlayers.BidDelivers` | apps/auctionhouse/service/auction.go:207-245 | a bid refunds the player it outbids, if another one, and nobody else |
| `AuctionPlayers.CancelDelivers` | apps/auctionhouse/service/auction.go:304-345 | a cancellation refunds the bidder and returns the item to the seller |
| `AuctionPlayers.ExpiryDelivers` | apps/auctionhouse/service/auction.go:526-543 | an expired auction is sold to its bidder at the standing bid, or returned to the seller |
| `AuctionPlayers.PlayersGetTheirs` | apps/auctionhouse/service/auction.go:133-555 | over every failure-free run within int32 and for every player: what they were charged and earned, less what they spent and the house kept, was mailed to them or is held for them, plus their own bid in a buyout over it |
| `AuctionPlayers.ItemsReachTheirOwners` | apps/auctionhouse/service/auction.go:133-555 | over every such run each player is mailed an item exactly as often as they bought it or got it back |
| `AuctionPlayers.StandingBidIsTheLastAccepted` | apps/auctionhouse/service/auction.go:207-245 | over every such run the standing bid of a live auction is the last accepted one, and its player's |
| `AuctionEscrow.EvenIffNoDrift` | apps/auctionhouse/service/auction.go:133-345 | for every pattern of failures, an operation changes no balance exactly under guards that can be read off its arguments, cache and table entries and failures |
| `AuctionEscrow.StepDrifts` | apps/auctionhouse/service/auction.go:133-345 | the exact change of the balance for every operation and every pattern of failing writes, effective or not, mails and publishes, and that it is none if and only if those guards hold |
| `AuctionEscrow.MoneyUnderFailures` | apps/auctionhouse/service/auction.go:133-345 | over every run with any failures, the balance is the sum of those changes |
| `AuctionEscrow.BalancedThroughoutIffEven` | apps/auctionhouse/service/auction.go:133-345 | a run stays balanced after every step if and only if every attempt was even |
| `AuctionEscrow.UnwrittenBidIsOwed` | apps/auctionhouse/service/auction.go:215-226 | a run in which a bid of 50 whose write failed is held unpaid |
| `AuctionLosses.ItemsDrift` | apps/auctionhouse/service/auction.go:133-345 | the exact number of items an attempt loses or doubles, for every pattern of failures |
| `AuctionLosses.KeepsItemIffNoDrift` | apps/auctionhouse/service/auction.go:133-345 | none is lost or doubled if and only if a buyout that shipped could delete, a cancelled item was mailed, and a sweep settled and mailed what it dropped |
| `AuctionLosses.ItemsUnderFailures` | apps/auctionhouse/service/auction.go:133-555 | over every run with any failures, what is missing is what attempts lost less what they doubled |
| `AuctionLosses.FailedDeleteDoublesItem` | apps/auctionhouse/service/auction.go:266-281 | a buyout whose delete fails ships an item that stays on offer |
| `AuctionLosses.FollowedIffAnnounced` | apps/auctionhouse/service/auction.go:133-345 | from a cache its log leads to, an attempt keeps it so if and only if it published its change: a lost event, an unwritten bid or cancel and an unsettled expiry do not |
| `AuctionLosses.FollowedThroughoutIffAnnounced` | apps/auctionhouse/service/auction_events.go:10-97 | a replica stays in step over a run, with any failures, if and only if every attempt did |
| `AuctionLosses.UnannouncedBidSeparates` | apps/auctionhouse/service/auction.go:222-242 | a bid whose write fails or whose event is lost is in the writer's cache alone |
| `AuctionBids.BidsStayBelowBuyout` | apps/auctionhouse/service/auction.go:173-302 | over every run, with any amounts and any failures, a standing bid in the cache is below a set buyout price |
| `AuctionBids.RowsStayBelowBuyout` | apps/auctionhouse/repo/auction_mysql.go:51-77 | the same for the table, until the 32-bit id counter comes round |
| `AuctionBids.DeductionsNeverWrap` | apps/auctionhouse/service/auction.go:205-257 | in every reachable state an accepted bid deducts a positive amount: the price reached less the bidder's own standing bid |
| `AuctionBooks.RunMirrored` | apps/auctionhouse/service/auction_events.go:10-97 | a writer's log is well formed and replays to its cache |
| `AuctionBooks.ReplicasConverge` | apps/auctionhouse/service/auction_events.go:10-97 | a replica that applied any prefix of a writer's log and is sent it again from any earlier point ends with the writer's cache |
| `AuctionEvents.RedeliveryOfOneLife` | apps/auctionhouse/service/auction_events.go:10-97 | for one auction, events delivered twice change nothing |
| `AuctionEvents.RedeliveryConverges` | apps/auctionhouse/service/auction_events.go:10-97 | for every well-formed log, redelivery from any point ends with the cache of a single delivery |
| `AuctionEvents.Replica.HandleAuctionCreated` | apps/auctionhouse/service/auction_events.go:10-47 | adds the entry without a bid, and leaves a known entry and its bid alone |
| `AuctionEvents.Replica.HandleBidPlaced` | apps/auctionhouse/service/auction_events.go:49-76 | updates a known entry, or removes it on a buyout |
| `AuctionEvents.Replica.HandleAuctionCanceled` | apps/auctionhouse/service/auction_events.go:78-87 | removes the entry |
| `AuctionEvents.Replica.HandleAuctionExpired` | apps/auctionhouse/service/auction_events.go:89-97 | removes the entry |
| `AuctionService.AuctionService.SellItem` | apps/auctionhouse/service/auction.go:133-171 | new cache, table, id counter and log for every outcome of the insert and the publish |
| `AuctionService.AuctionService.PlaceBid` | apps/auctionhouse/service/auction.go:173-302 | the refusals in order, then a raise or a buyout, with the whole new state and reply for every failure |
| `AuctionService.AuctionService.CancelAuction` | apps/auctionhouse/service/auction.go:304-345 | refunds, returned item, cut and new state for every failure |
| `AuctionService.AuctionService.ProcessExpiredAuctions` | apps/auctionhouse/service/auction.go:483-557 | every due auction of the realm is processed exactly once, in some order, and none is due there afterwards |
| `ExpirySweep.AtMostOnce` | apps/auctionhouse/repo/auction_mysql.go:79-110 | in every interleaving of any number of instances, with cancels, buyouts and any failures, sweeps settle an auction at most once and only when its row is gone; a row that is gone was settled by a sweep if and only if neither a cancel or buyout nor a DELETE with a lost reply took it |
| `ExpirySweep.PayoutsCounted` | apps/auctionhouse/service/auction.go:260-345 | in every reachable state the payouts of an auction are: one if its row is gone and the DELETE was answered, plus one for each cancel or buyout whose DELETE found no row, failed, is still to come, or was not reached because the item mail failed after the seller was paid |
| `ExpirySweep.PaidTwiceIffSaleFoundNoRow` | apps/auctionhouse/service/auction.go:260-345 | without failures and with no cancel or buyout open, an auction was paid out twice if and only if the DELETE of a cancel or buyout found no row |
| `ExpirySweep.MissesIffTakenBetween` | apps/auctionhouse/service/auction.go:260-345 | such a DELETE finds no row if and only if the row was gone when the mails went out, or a sweep or another cancel or buyout deleted it in between |
| `ExpirySweep.RowGoneIffTaken` | apps/auctionhouse/repo/auction_mysql.go:71-110 | over every run a listed row leaves the table if and only if some DELETE took it |
| `ExpirySweep.PaidTwiceHappens` | apps/auctionhouse/service/auction.go:260-345 | a run without failures that pays out twice: a buyout and a cancel both mail before either deletes |
| `ExpirySweep.LostReplyPaysNobody` | apps/auctionhouse/repo/auction_mysql.go:98-106 | a run in which an auction is gone and never paid out |
| `ExpirySweep.ExactlyOnce` | apps/auctionhouse/repo/auction_mysql.go:79-110 | when no statement fails, every listed auction that no instance has left to process was paid out exactly once, and once more per sale DELETE that found no row; by sweeps alone, settled exactly once |
| `ExpirySweep.AbandonedForever` | apps/auctionhouse/service/auction.go:487-514 | an auction in no cache, sweep, cancel or buyout keeps its row and is never paid out, whatever happens, unless its creation is announced again |
| `ExpirySweep.FailingDeleteAbandons` | apps/auctionhouse/service/auction.go:504-514 | a failing DELETE of an existing row leads there if and only if no other instance knows the auction |
| `ExpirySweep.FailingSelectAbandons` | apps/auctionhouse/service/auction.go:504-514 | so does a failing SELECT, if and only if no other instance knows the auction |
| `ExpirySweep.AbandonedHappens` | apps/auctionhouse/service/auction.go:504-514 | a run that abandons an auction |
| `ExpirySweep.OutdatedIffHit` | apps/auctionhouse/repo/auction_mysql.go:79-110 | over every run with rising bids, a settlement differs from the deleted row if and only if a bid hit the row while its sweep held it |
| `ExpirySweep.SettlesCurrentRowIffNoBidBetween` | apps/auctionhouse/repo/auction_mysql.go:79-110 | a sweep that selects and later deletes a row settles on the row as deleted if and only if no bid on the auction came between |
| `ExpirySweep.SettlesOnTheSelectedRow` | apps/auctionhouse/repo/auction_mysql.go:79-110 | rising or not: the settlement uses the row of the SELECT, the DELETE takes the row of the last bid in between |
| `ExpirySweep.LateBidIsMissed` | apps/auctionhouse/repo/auction_mysql.go:63-110 | a run in which the settlement misses a bid |
| `ChatChannel.StepKeepsInv` | apps/chatserver/service/channel-manager.go:210-318 | every operation, with any database failures, keeps exactly one owner, the recorded one, in a nonempty channel with ownership |
| `ChatChannel.SetOwnerKeepsInv` | apps/chatserver/service/channel-manager.go:546-590 | the same for SetOwner with either write failing |
| `ChatChannel.LogoutKeepsInv` | apps/chatserver/service/channel-manager.go:965-1048 | the same for the transfer on logout, which keeps the old owner as a member |
| `ChatChannel.PruneKeepsInv` | apps/chatserver/service/channel-manager.go:1178-1235 | the same for pruning, the owner included |
| `ChatChannelRuns.OwnershipIsExclusive` | apps/chatserver/service/channel-manager.go:210-318 | over every run of joins, leaves (a kick is one), bans, transfers, flag changes, logouts and prunes, with any failures, a nonempty channel with ownership has exactly one owner |
| `ChatChannelRuns.WriteThrough` | apps/chatserver/service/channel-manager.go:363-414 | if table and memory agree before an operation they agree after it if and only if no write of a listed kind was lost; always for join and flag changes |
| `ChatChannelRuns.TableRestoresChannel` | apps/chatserver/service/channel-manager.go:166-195 | after any run without a lost write, loading the table restores members and owner |
| `ChatChannelRuns.LoadIsSound` | apps/chatserver/service/channel-manager.go:166-195 | a loaded channel has exactly one owner if and only if its table is empty or has one owner row |
| `ChatChannelRuns.HalfWrittenTransferLosesTheOwner` | apps/chatserver/service/channel-manager.go:571-586 | after the second write of SetOwner fails, a channel loaded from the table has no owner |
| `ActiveChannel.ActiveChannel.constructor` | apps/chatserver/service/channel-manager.go:153-195 | the members are the rows, the owner is a row with the owner flag if there is one, and only unexpired bans are kept |
| `ActiveChannel.ActiveChannel.JoinChannel` | apps/chatserver/service/channel-manager.go:210-263 | the whole new state and reply: ban, password, first member as owner, rights, rollback on a failed save |
| `ChatChannelMembers.JoinReplies` | apps/chatserver/service/channel-manager.go:214-262 | each reply to a join as an if-and-only-if over ban, password, membership and save, in order |
| `ChatChannelMembers.NewMember` | apps/chatserver/service/channel-manager.go:229-253 | a new member is owner exactly as the first of a channel with ownership, and moderator exactly by its rights |
| `ChatChannelMembers.MembersAfter` | apps/chatserver/service/channel-manager.go:210-414 | for every operation: who enters, who leaves, and that flags other than the owner's change only on request |
| `ChatChannelMembers.BansChangeByBan` | apps/chatserver/service/channel-manager.go:491-500 | bans change only by a ban |
| `ChatChannelMembers.OtherReplies` | apps/chatserver/service/channel-manager.go:267-590 | the replies of leaving, flag changes and owner transfer |
| `ChatChannelMembers.BannedStaysOut` | apps/chatserver/service/channel-manager.go:215-217 | over every run, a player who is out and banned until t does not get in before t |
| `ChatChannelMembers.NobodySlipsIn` | apps/chatserver/service/channel-manager.go:210-263 | over every run, whoever got in was admitted by a join past the ban, with the password, that was saved |
| `ActiveChannel.ActiveChannel.LeaveChannel` | apps/chatserver/service/channel-manager.go:267-318 | the whole new state, the old one when the removal fails; a new owner is a moderator if one remains |
| `ActiveChannel.ActiveChannel.FindHeir` | apps/chatserver/service/channel-manager.go:289-303 | a moderator if there is one, else any other member, else nobody, whatever the walk |
| `ActiveChannel.ActiveChannel.SetMemberFlag` | apps/chatserver/service/channel-manager.go:363-414 | sets or clears one flag in memory and table, or neither |
| `ActiveChannel.ActiveChannel.SetOwner` | apps/chatserver/service/channel-manager.go:546-590 | the whole new state for each pattern of failing writes |
| `ActiveChannel.ActiveChannel.TransferOnLogout` | apps/chatserver/service/channel-manager.go:965-1048 | moves the owner flag and keeps the member, or changes nothing; the new owner is a moderator if another one is there |
| `ActiveChannel.ActiveChannel.PruneOfflineMembers` | apps/chatserver/service/channel-manager.go:1178-1235 | members and rows after the removals; a new owner is a moderator if one remains |
| `ActiveChannel.ActiveChannel.FindMemberByName` | apps/chatserver/service/channel-manager.go:351-360 | a member of that name, or 0 if and only if there is none |
| `ActiveChannel.ActiveChannel.BanPlayerByName` | apps/chatserver/service/channel-manager.go:663-696 | takes effect exactly for a moderator or owner and an existing name: the target is banned in memory, out unless the removal failed, and in the ban table unless that write failed, which is the error |
| `UpdatePipeline.CharacterIsLawful` | apps/gateway/service/characters-updates-barrier.go:107-145 | for the online record, applying two updates is applying their merge |
| `UpdatePipeline.FriendMergesExactly` | apps/charserver/service/friends-cache.go:128-138 | for the friends cache that holds if and only if no lone area follows a different zone |
| `UpdatePipeline.RunKeepsInv` | apps/gateway/service/characters-updates-barrier.go:47-68 | at any moment of any run, sending the buffer would bring every record to where all raw updates bring it |
| `UpdatePipeline.BarrierIsTransparent` | apps/gateway/service/characters-updates-barrier.go:47-145 | for every sequence of raw updates and ticks, failed and partial ones included, after the next successful tick the store is what applying every raw update in order makes it |
| `UpdatePipeline.OnlineCharactersAreCurrent` | apps/charserver/repo/online-characters_inmem.go:138-184 | the same for level, map and zone of the online characters, without any proviso |
| `UpdatePipeline.FriendsAreCurrent` | apps/charserver/service/friends-cache.go:118-142 | the same for the friends cache when area comes only with zone |
| `UpdatePipeline.LoneAreaIsLost` | apps/charserver/service/friends-cache.go:133-138 | the failing case: a lone area after a zone in one buffer |
| `UpdatePipeline.BatchingIsInvisible` | apps/gateway/service/characters-updates-barrier.go:70-105 | delivering batch by batch equals delivering their concatenation |
| `UpdatesBarrier.SendInOrder` | apps/gateway/service/characters-updates-barrier.go:76-104 | what is published is the walk cut into full batches and a rest, all of it unless a publish fails |
| `UpdatesBarrier.Send` | apps/gateway/service/characters-updates-barrier.go:70-105 | a send without error puts every entry in exactly one batch; a failing one has published distinct entries in full batches |
| `UpdatesBarrier.SmallSendsAreWhole` | apps/gateway/service/characters-updates-barrier.go:71-74 | fewer than 1000 entries go out in one batch |
| `UpdatesBarrier.LargeSendsAreFull` | apps/gateway/service/characters-updates-barrier.go:78-93 | from 1000 on all batches but the last hold exactly 1002 entries, and the last one the rest |
| `UpdatesBarrier.Barrier.Receive` | apps/gateway/service/characters-updates-barrier.go:61-65 | merges into the buffered entry of the same character |
| `UpdatesBarrier.Barrier.Tick` | apps/gateway/service/characters-updates-barrier.go:54-60 | clears the buffer exactly when the send succeeded |
| `UpdatesBarrier.OnlineCharacters.HandleCharactersUpdates` | apps/charserver/repo/online-characters_inmem.go:138-184 | the loop applies the updates in order and skips unknown characters |
| `UpdatesBarrier.FriendsCache.HandleCharactersUpdates` | apps/charserver/service/friends-cache.go:118-142 | the same for the friends cache |
| `StatsTracking.EmissionsMirror` | apps/gateway/session/interceptors.go:17-164 | replaying what any packet sends turns the old character into the new one, and area comes only with zone |
| `StatsTracking.SilentIffUnchanged` | apps/gateway/session/interceptors.go:119-163 | a packet sends nothing if and only if it changes nothing |
| `StatsFromPackets.HealthFromPacket` | apps/gateway/session/interceptors.go:119-159 | from the bytes of any message: hit points, level and power type are the last words sent for 0x18, 0x20, 0x36 unless zero, and the top byte of 0x17 |
| `StatsFromPackets.PowerFromPacket` | apps/gateway/session/interceptors.go:134-152 | power and its maximum are the last words sent for 0x19 + t and 0x21 + t, t being the power type after the packet |
| `StatsFromPackets.FieldIsLastWord` | apps/gateway/packet/update-object.go:193-215 | a tracked field of a parsed message is the last word sent for it, at its rank |
| `StatsFromPackets.UnparsedPacket` | apps/gateway/session/interceptors.go:113-117 | a payload that does not parse changes and sends nothing |
| `StatsFromPackets.PlacesFromPacket` | apps/gateway/session/interceptors.go:17-36 | map, zone and area are the first three words, and updates go out for map and zone if they changed |
| `StatsFromPackets.LevelFromPacket` | apps/gateway/session/interceptors.go:38-50 | the level is the low byte of the first word |
| `StatsFromPackets.SnapshotCarries` | apps/gateway/session/interceptors.go:77-103 | a snapshot carries the level, hit points once a maximum is known, power once its type is known |
| `StatsTracking.RecordsFollowSessions` | apps/gateway/session/interceptors.go:17-164 | for every sequence of packets and ticks, once a tick succeeds a consumer's records are views of the sessions' characters |
| `StatsTracking.OnlineRecordsFollowSessions` | apps/charserver/repo/online-characters_inmem.go:138-184 | the online records show level, map and zone of the sessions' characters |
| `StatsTracking.FriendRecordsFollowSessions` | apps/charserver/service/friends-cache.go:118-142 | the friends cache shows their level and zone |
| `StatsTracking.WholeRecordsFollowSessions` | apps/gateway/session/interceptors.go:105-164 | a consumer that keeps every field of the updates holds the characters themselves |
| `StatsTracking.CharacterView` | apps/charserver/repo/online-characters_inmem.go:172-184 | the online record is such a consumer |
| `StatsTracking.FriendView` | apps/charserver/service/friends-cache.go:128-138 | the friends cache is one, with its area showing the zone |
| `StatsTracking.Session.InterceptInitWorldStates` | apps/gateway/session/interceptors.go:17-36 | new map and zone, and an update for each that changed |
| `StatsTracking.Session.InterceptLevelUpInfo` | apps/gateway/session/interceptors.go:38-50 | new level modulo 256, and an update if it changed |
| `StatsTracking.Session.Absorb` | apps/gateway/session/interceptors.go:119-159 | the delta holds exactly the fields in which the character changed; powers are those of the final power type |
| `StatsTracking.Session.TrackCharacterStats` | apps/gateway/session/interceptors.go:107-164 | from the packet's bytes: new character and update, or neither when parsing fails |
| `StatsTracking.Session.PublishCharacterStatsSnapshot` | apps/gateway/session/interceptors.go:77-103 | all known fields; hit points wait for a maximum, power for a known type |
| `WorkerPool.CompletesIffFits` | shared/healthandmetrics/health-checker.go:118-167 | a run that can go no further has completed the iteration if and only if there are no objects, or at least one worker and at most 200 + P objects |
| `WorkerPool.ExactlyOnce` | shared/healthandmetrics/health-checker.go:118-167 | every run takes at most 4N steps, and a completed one has handled each object exactly once |
| `WorkerPool.DeadlockShape` | shared/healthandmetrics/health-checker.go:118-167 | beyond the threshold every maximal run ends with both channels full, all workers blocked and no result handled |
| `WorkerPool.NeverCollects` | shared/healthandmetrics/metrics-reader.go:115-146 | beyond the threshold, or without workers, no result is ever handled |
| `HealthChecker.Checker.AddHealthCheckObject` | shared/healthandmetrics/health-checker.go:62-75 | appends an address unless it is listed, so none is listed twice |
| `HealthChecker.Checker.RemoveHealthCheckObject` | shared/healthandmetrics/health-checker.go:77-89 | removes exactly that address and keeps the order |
| `HealthChecker.Checker.HandleResults` | shared/healthandmetrics/health-checker.go:130-154 | the failing objects are gone, and observers were called once per result in order |
| `HealthChecker.IterationKeepsTheHealthy` | shared/healthandmetrics/health-checker.go:118-154 | whatever the interleaving, a completed iteration keeps exactly the healthy objects, in order |
| `GroupStats.SlotsRoundTrip` | apps/gateway/session/groups.go:841-892 | mask and payload always match: reading by the mask returns every field, narrowed, and leaves nothing |
| `GroupStats.PacketRoundTrip` | apps/gateway/session/groups.go:825-892 | the same for whole packets, incremental and full |
| `GroupStats.ReceiveEffect` | apps/gateway/session/groups.go:737-746 | an incremental packet changes exactly the fields it carries; a full one sets the others to zero |
| `GroupStats.ClientShowsTheCache` | apps/gateway/session/groups.go:691-892 | over every run of events and requests the client shows every cached field, modulo the 16-bit narrowing of power and zone |
| `GroupStats.FullAnswerErasesTheRest` | apps/gateway/session/groups.go:737-754 | a full answer leaves the client's view unchanged if and only if all fields missing from the cache were blank; an incremental one always does |
| `GroupStats.RequestsChangeNothing` | apps/gateway/session/groups.go:710-749 | a request never changes what the client shows of a member it knows, and goes unanswered exactly when the member is neither cached nor online |
| `GroupStats.CompleteSlots` | apps/gateway/session/groups.go:751-754 | complete means that every field of the packet is present |
| `GroupSession.EventIsARun` | apps/gateway/session/groups.go:691-705 | a whole event is a run of single changes |
| `GroupSession.BuildMask` | apps/gateway/session/groups.go:842-864 | each present field sets its own bit |
| `GroupSession.PacketLayout` | apps/gateway/session/groups.go:841-892 | the packet byte for byte: GUID, one mask bit per field from 0x2 to 0x80, status 1, then the present fields in order with their widths |
| `GroupSession.PayloadLayout` | apps/gateway/session/groups.go:871-891 | the fields in wire order: two of four bytes, one of one, four of two |
| `GroupSession.EventCachesMembers` | apps/gateway/session/groups.go:691-705 | an event caches exactly the members it tells of, without the character itself |
| `GroupSession.CacheHoldsLastChange` | apps/gateway/session/groups.go:792-821 | each cached field is the last one an event sends for the member, or what it was |
| `GroupSession.WritePartyMemberStats` | apps/gateway/session/groups.go:841-892 | appends GUID, mask, status and the present fields, narrowed |
| `GroupSession.Session.StoreGroupMemberStats` | apps/gateway/session/groups.go:792-821 | merges into the member's entry and touches no other |
| `GroupSession.Session.HandleEventGroupMembersUpdated` | apps/gateway/session/groups.go:691-705 | caches and forwards every change but the character's own, in order |
| `GroupSession.Session.HandleRequestPartyMemberStats` | apps/gateway/session/groups.go:710-749 | full if complete, incremental if cached or online, else passed on |
| `ChannelIndex.StepKeepsInv` | apps/gateway/events-broadcaster/chat-channels.go:148-221 | every operation keeps both directions of the index equal and every indexed player's stream open |
| `ChannelIndex.DisconnectKeepsInv` | apps/gateway/events-broadcaster/chat-channels.go:202-221 | a disconnected player is in no channel |
| `ChannelIndex.EveryPlayerHasAMailbox` | apps/gateway/events-broadcaster/chat-channels.go:148-221 | over every run each player receives, in order, exactly what is said in the channels they are in while their stream has room |
| `ChannelIndex.ChatChannelsService.AddPlayerToChannel` | apps/gateway/events-broadcaster/chat-channels.go:148-160 | member set, reverse index and stream |
| `ChannelIndex.ChatChannelsService.RemovePlayerFromChannel` | apps/gateway/events-broadcaster/chat-channels.go:162-176 | both directions; an empty index entry disappears, the stream stays |
| `ChannelIndex.ChatChannelsService.BroadcastToChannel` | apps/gateway/events-broadcaster/chat-channels.go:178-200 | appends the event once to exactly the member streams that are not full |
| `ChannelIndex.ChatChannelsService.DisconnectPlayer` | apps/gateway/events-broadcaster/chat-channels.go:202-221 | removes the player from all channels, the index and the streams, and touches nobody else |

## Left out

- NATS, gRPC, SQL text, configuration, logging: plumbing; SQL appears as atomic steps on a map, mail as a ledger.
- The cgo sidecar, opcode tables, socket redirects, login, layering and battleground porting.
- zlib and RC4: decompression is not modelled, and the cipher is an arbitrary keystream combined by exclusive or.
- `int` is taken to be 64 bits wide in the parser, so that the length of a skipped path does not overflow.
- The parser's result next to an error is what the code has read so far, and is proved to be that; no use is made of it.
- Floats, `SetByteOrder` and raw reads of the codec: they would only add easy members.
- AuctionBooks.MoneyConserved: covers one operation at a time, without failures and with amounts within int32; `AuctionEscrow` and `AuctionLosses` add the failures, still one operation at a time. A mail that the mail service reports as failed counts as not sent.
- AuctionEscrow.StepDrifts: like the other results on table rows, up to the point where the 32-bit id counter comes round and reuses ids.
- ExpirySweep.SettlesCurrentRowIffNoBidBetween: assumes that a bid that takes effect raises the last bid in the table, which `PlaceBid` checks against the instance's cache; `SettlesOnTheSelectedRow` does not.
- ExpirySweep.AbandonedForever: restarting an instance, which loads the table again, is not a step.
- Auction ids across realms and instances, `LoadAuctions`, `ListItems` and its ordering: ids rely on the database key and Go's map order is unspecified.
- Channel flags, announcements, moderation mode, passwords set later, unban: easy; a flag byte is a set of flags. GUID 0 is not a member, since the source uses it for nobody.
- The name index of the online characters and the login and logout events of the caches: a stale buffered update may be applied after a new login; the theorems are about characters that stay online.
- Clocks and tickers: time is an argument, and a tick is a step.
- The client in `GroupStats` is the reader that the packet format calls for; it is not part of the repository. Answers of the game server about members that are not cached may be anything; one that was asked for before a member was cached and arrives afterwards is not modelled.
- Groups managed by the game server, the membership snapshot and its expiry.
- Data races: operations of the chat-channel index are atomic here.
