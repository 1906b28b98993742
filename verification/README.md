# TMedge, modelled and proved in Dafny

TMedge is the server beside a building's thermal sensors. It admits their signed packets, rolls
out their firmware, turns their frames into taken and free seats, and keeps what may be needed to
undo or repeat any of it. This project models the parts whose correctness is not visible in one
function: protocols whose invariant spans files, crashes and concurrent calls, and algorithms whose
fast form has to mean what the plain one says.

| files | what they model |
|---|---|
| `Journal`, `Replay`, `Ingest`, `IngestSafety`, `AdmissionSafety`, `Acceptance`, `FailedReset` | replay-protected admission in front of a write-ahead journal |
| `Rollout`, `RolloutSafety`, `RolloutReports`, `RolloutGrants`, `RolloutProgress`, `RolloutServer` | the staged firmware rollout |
| `UnionFind`, `BlobMerge`, `Seating` | blob merging, greedy seating and seat hysteresis |
| `HeatConv`, `HeatLaws`, `HeatModel` | the convolution engine and its model checker |
| `Segmentation`, `BlobSplit`, `EdgeDetect`, `BlobLaws` | people from one thermal frame |
| `DirectLink` | the lag filter and the rate limit of direct sessions |
| `Graph` | pipeline order and dependencies |
| `Octets`, `Streams`, `Frames`, `FrameReader` | gateway framing and datagram addresses |
| `HelloReplay` | gateway HELLO admission and its journal |
| `Protocol`, `RawFrames`, `Packets`, `WireLayout` | the node wire format |
| `Params`, `ParamsSafety`, `ParamTimers`, `ParamServer`, `EdgeTuning` | recoverable parameter writes |
| `Recording`, `Outbox` | pre-roll recording and the database drain |

`Wrappers` and `Chains` hold what several of them share.

## How it is modelled

- A protocol is a state machine. Each `await` splits a call into a step before it and a step
  after it, and theorems speak of every sequence of enabled steps. The file system answers through
  a step's parameters: a write may succeed, fail part-way, or be replaced and still reported as
  failed; a crash keeps any prefix that was not yet durable.
- What the program updates in place is a class here, and its methods leave exactly the state the
  transition functions say; the theorems are about those functions. The methods also say on their own
  fields what they decide and what they leave, so that neither side can drift unnoticed: what must be
  let through is proved beside what must not.
- Numbers are exact: `int` and `real` where the program has floats, with the 16-, 32- and 8-bit
  wraps, clamps and roundings of the wire written out.
- Signatures, IP syntax, file contents and database constraints are function parameters; sensor,
  node and build identifiers are numbers.

## What turned out to have conditions

- A cursor reset can report an error and still take effect after a crash: exactly when its line was
  written in full and only the fsync failed. An older packet is then accepted
  (`FailedReset.TakesEffectIff`, `FailedReset.AcceptsAfterFailedReset`); the log of the model
  counts such a reset as one (`IngestSafety.ReplayProtection`).
- A node that may download has been asked, or is about to be, exactly unless its commit hook was
  settled when it no longer waited to be sent to (`RolloutGrants.GrantsFollowRequests`): one that
  reports a download while the hook is pending keeps its grant, and the request is never sent
  (`RolloutGrants.GrantWithoutRequest`).
- Cancelling a rollout can overwrite a confirmed or failed node with skipped, exactly when that
  node's commit hook is still pending (`RolloutProgress.FinishedChangesOnlyOnCancel`).
- An address longer than 255 characters, as an IPv6 zone allows, does not survive the length byte
  (`Frames.AddressRoundTrip`, `Frames.LongAddressIsLost`, `Frames.ZoneIsLost`).
- A HELLO reads the clock twice; a repeat is possible exactly when the two readings lie on either
  side of its expiry (`HelloReplay.RepeatableWhen`).
- Reported parameter values are journalled unchecked, but the constructor refuses a journal with a
  value outside the limits, so one odd report can keep the broker from starting
  (`ParamsSafety.StartsAgainIff`, `ParamsSafety.OddReportStopsStart`).
- Committing one of enterMin and enterWindow while the other is pending can leave a revert that is
  refused until the rest is committed too or the edge restarts; a save to flash in flight delays a
  revert (`EdgeTuning.RestoredIff`, `EdgeTuning.CommitCanBlock`, `EdgeTuning.SaveCanDelay`).
- Uptime unwrapping is right for gaps of under half a wrap and, beyond that, exactly when no wrap
  happened (`DirectLink.UnwrapExact`, `DirectLink.UnwrapMisses`).

## Model

| member | source | states |
|---|---|---|
| IngestSafety.ReplayProtection | src/edge/ingest.ts:236-338 | over every run of arrivals, batched flushes, failed or torn writes, session closes, resets, crashes and restarts, the (boot, seq) pairs accepted from one node strictly increase unless a reset lies between, and the command numbers handed out strictly increase with no exception |
| IngestSafety.JournalAlwaysReloads | src/edge/replay.ts:30-51 | whatever complete prefix a crash keeps of the file reads back, the same prefix with a torn tail is refused, and what is read covers every packet accepted and every command number issued |
| IngestSafety.JournalMatchesMemory | src/edge/replay.ts:134-208 | a quiet healthy store reads back as exactly its memory, all of it durable; during a batch the file is ahead by exactly that batch; the cursors never exceed 5000 nodes |
| AdmissionSafety.AdmittedIsNewer | src/edge/ingest.ts:312-338 | in every state of every run, a store latched by a failed write included, a packet passes admission only if it is newer than everything accepted from its node since its cursor was last reset |
| Ingest.AdmissibleIff | src/edge/ingest.ts:312-338 | decided on the two tables alone: a packet passes exactly when its session does not object, its (boot, seq) lies above the node's link and its saved cursor where it has one, and, for a node with neither, there is room beside the known and the coming |
| Ingest.RebootIsAdmitted | src/edge/ingest.ts:316-326 | a node with a later boot count is let in whatever sequence number it starts from |
| Acceptance.NewerIsAccepted | src/edge/ingest.ts:236-338 | in every state of every run, a packet above its node's saved cursor, or from a new node with room left, that meets no failure is accepted within its five steps, and nothing else is, with other nodes' packets in flight around it |
| Acceptance.OlderIsDropped | src/edge/ingest.ts:312-328 | in every such state any other packet is dropped at admission and leaves the edge exactly as it was |
| IngestSafety.AdmittedFits | src/edge/ingest.ts:316-328 | known nodes and newcomers still in flight together stay within 5000 after every admission |
| AdmissionSafety.NextIsNewer | src/edge/ingest.ts:430-440 | in every state of every run, a store latched by a failed write included, an allocation hands out a number above all handed out before, or none |
| IngestSafety.StepKeeps | src/edge/ingest.ts:236-466 | the invariant behind the three run theorems survives every kind of step |
| FailedReset.TakesEffectIff | src/edge/replay.ts:99-132 | on a quiet, healthy edge a reset of a known node that reports an error can take effect after a crash exactly when the store got as far as writing its line and the line was written in full |
| FailedReset.AcceptsAfterFailedReset | src/edge/ingest.ts:442-449 | for every node and any two of its packets there is a run in which the second is accepted after the first although the one reset between them reported an error |
| Journal.ReadSnapshot | src/edge/replay.ts:30-51 | strict reading: an error exactly for a torn tail, a malformed line or too many nodes, otherwise the state the lines fold to |
| Journal.FoldReadsAs | src/edge/replay.ts:30-51 | what lines mean: a node is known exactly when the last line naming it is a cursor, and by that cursor |
| Journal.FoldIsLargest | src/edge/replay.ts:30-51 | the counter read is the largest written, or 0 |
| Journal.CompactionPreserves | src/edge/replay.ts:196-208 | folding a freshly written checkpoint gives exactly the cursors and counter it was written from, in whatever order the map is walked |
| Replay.ReplayStore.AcceptAsync | src/edge/replay.ts:86-97 | queues the entry exactly when the store is healthy, the entry valid and the queue has room |
| Replay.ReplayStore.FlushBegin | src/edge/replay.ts:134-156 | takes the whole queue as one batch, compacting first when the file is long; the batch is in flight exactly when the store was healthy, the compaction worked and the write succeeded, and otherwise everything queued is rejected and the store latches |
| Replay.ReplayStore.FlushEnd | src/edge/replay.ts:156-173 | durable exactly on a good fsync of a healthy store; then each node's cursor is its last entry in the batch, the counter the largest, and the file durable; otherwise nothing in memory moves and everything queued is rejected |
| Replay.PublishIsLatest | src/edge/replay.ts:156-173 | after a batch a node's cursor is the last one the batch holds for it, or what it was |
| Replay.ReplayStore.Command | src/edge/replay.ts:99-107 | answers yes exactly for a 32-bit number that is not above the counter already or whose line was fsynced, and only then moves the counter |
| Replay.ReplayStore.Reset | src/edge/replay.ts:109-117 | forgets exactly that cursor, exactly when nothing is queued, the store is healthy and the line was fsynced |
| Ingest.IngestServer.Admit | src/edge/ingest.ts:312-338 | refuses exactly by the tables: session, (boot, seq) above both cursors, room for a new node; an admitted packet's job is writing with its entry last in the queue, or settled as failed when the store takes none; its reservation and command number are noted, and nothing else moves |
| Ingest.IngestServer.Finish | src/edge/ingest.ts:252-274 | accepted exactly when its write is durable and its session still open; then the link moves and nothing else does, and the reservation is dropped either way |
| Ingest.IngestServer.AllocateCommandSeq | src/edge/ingest.ts:430-440 | the number is the larger of the clock and one past the counter; it is returned exactly when it fits 32 bits and is or was made durable |
| Ingest.IngestServer.ResetCursor | src/edge/ingest.ts:442-449 | succeeds exactly with nothing in flight or queued, a known form of id and a line that was fsynced; then both the saved and the link cursor go and no other |
| Ingest.Open | src/edge/ingest.ts:155-171 | a start succeeds exactly over a readable journal that could be rewritten, with the state it holds |
| RolloutSafety.DispatchesAreJustified | src/edge/rollout.ts:291-425 | over every run, a request or image push is only for a rollout that has started, has not ended and was not replaced; for a node other than the first only after the first confirmed; and no node is asked twice in one rollout |
| RolloutSafety.FewInFlight | src/edge/rollout.ts:309-341 | while the pilot runs at most one node is in flight, afterwards at most `batch` |
| RolloutReports.ConfirmedIsReported | src/edge/rollout.ts:255-289 | over every run a node is on record as confirmed only because at an earlier step that node, under its own uid and for that rollout's image, reported confirmed |
| RolloutReports.ConfirmedNodeReported | src/edge/rollout.ts:255-289 | the same of every node shown as confirmed in any reachable state |
| RolloutReports.OthersWaitForThePilot | src/edge/rollout.ts:291-341 | so no node but the first is asked, and no image pushed for one, before the first node itself reported confirmed |
| RolloutReports.ReportIs | src/edge/rollout.ts:255-289 | report by report: reverted and failed leave the node failed, confirmed leaves it confirmed and on record and a running pilot's rollout past its pilot; a running pilot that failed stops the rollout on the spot, with the end on record and no other unfinished, unstarted node left but skipped |
| RolloutReports.PilotFailureStops | src/edge/rollout.ts:281-323 | in every state of a run, a running pilot that reports reverted or failed leaves the rollout stopped, every other unfinished node skipped, finished ones as they were, and nobody asked |
| RolloutReports.ProgressIs | src/edge/rollout.ts:265-280 | downloading, verifying, applying and rebooting put the node in that state, at that time, and confirm nobody |
| RolloutReports.StaleIsIgnored | src/edge/rollout.ts:255-262 | a report about another image, of an unknown, unasked or finished node, or after the end changes nothing |
| RolloutReports.DoneIff | src/edge/rollout.ts:291-341 | a tick that finds a rollout running leaves it done exactly when every node is finished and it did not stop, with its end on record either way |
| RolloutGrants.GrantsFollowRequests | src/edge/rollout.ts:149-156 | over every run, a node that may download belongs to a started rollout that has not ended; its request was sent or waits for its hook, exactly unless that hook was settled when the node was not waiting to be sent to any more |
| RolloutGrants.GrantWithoutRequest | src/edge/rollout.ts:392-417 | that exception happens: a node that reports a download while its hook is pending keeps the grant, and its request is never sent |
| RolloutGrants.GrantedIff | src/edge/rollout.ts:149-154 | a node may download exactly while a rollout of that image runs and the node is being asked or is downloading |
| RolloutGrants.CancelEndsGrants | src/edge/rollout.ts:149-154 | cancelling ends every grant at once |
| RolloutSafety.StepKeeps | src/edge/rollout.ts:183-434 | the invariant survives every start, tick, report, gateway answer, cancel, hook and reply |
| RolloutProgress.TickProgress | src/edge/rollout.ts:291-341 | one tick past every deadline ends the rollout or strictly lowers the work left |
| RolloutProgress.RolloutEnds | src/edge/rollout.ts:291-390 | with no hook, no reports and batch at least 1, from every reachable running state three ticks per node and one more, spaced beyond the longest timeout, end the rollout |
| RolloutProgress.LaunchFills | src/edge/rollout.ts:325-341 | where every queued node can be asked at once, a tick leaves off only with a full batch in flight or nobody queued |
| RolloutProgress.FinishedChangesOnlyOnCancel | src/edge/rollout.ts:229-237 | a finished node changes state exactly when its running rollout is cancelled while its own hook is pending, and then to skipped |
| RolloutProgress.ConfirmedThenSkipped | src/edge/rollout.ts:229-237 | a run of four steps from a fresh server in which a confirmed pilot ends up skipped this way |
| RolloutServer.Rollouts.Tick | src/edge/rollout.ts:291-341 | the in-place loops compute exactly the tick the theorems speak of |
| RolloutServer.Rollouts.Begin | src/edge/rollout.ts:345-390 | one attempt to dispatch a node leaves exactly the specified state, including the claim in `launching` |
| RolloutServer.Rollouts.Cancel | src/edge/rollout.ts:229-237 | queued nodes and those with a pending hook are skipped and the rollout stops |
| RolloutServer.Rollouts.OnOtaStatus | src/edge/rollout.ts:255-289 | a report that matches no node changes nothing; one that does leaves what each kind of report says, field by field, beside the specified state |
| RolloutServer.Rollouts.OnHook | src/edge/rollout.ts:354-417 | when a hook settles late the dispatch goes on only if it is still wanted, else the node is put back or left alone |
| RolloutServer.Rollouts.BeginOnce | src/edge/rollout.ts:354-390 | who is asked and where: port 443 for a direct node, the direct port without a gateway, the gateway's port once it is ready; a gateway is asked for the image once, and one that stays silent too long fails the node |
| RolloutServer.Rollouts.OnRequestHook | src/edge/rollout.ts:392-417 | the request goes out exactly if the hook passed and the node still waits; a failed hook puts it back in line, not started |
| UnionFind.Root | src/edge/occupancy.ts:341-341 | the compressing search terminates, returns the tree's root and keeps the forest and every root as they were |
| UnionFind.Cluster | src/edge/occupancy.ts:339-352 | after all pairs two items share a root exactly when a chain of linked pairs connects them |
| BlobMerge.MergeClose | src/edge/occupancy.ts:338-373 | two blobs go into one output exactly when a chain of close-and-fragment pairs links them, each output is its one member or the merger of several, field by field, and total heat, area and normalised heat are unchanged |
| BlobMerge.GroupByRoot | src/edge/occupancy.ts:353-358 | one non-empty list per root, holding exactly its members in input order |
| BlobMerge.FragmentIff | src/edge/occupancy.ts:346-349 | without the quotient: nearer than the limit and less than two fifths of the other's normalised heat |
| BlobMerge.MergedIs | src/edge/occupancy.ts:358-372 | a lone blob is itself; several become the first of the largest area with the totals of area, heat and norm, the largest contrast and peak and the mean position weighted by norm or a millionth |
| BlobMerge.MergingConserves | src/edge/occupancy.ts:359-372 | any partition merged cluster by cluster keeps the three totals |
| BlobMerge.MergedInside | src/edge/occupancy.ts:361-366 | a merged blob's floor position stays inside its members' bounding box |
| Seating.PairsInReach | src/edge/occupancy.ts:408-418 | exactly the pairs whose squared distance, in both coordinates, is at most the squared reach, 60 cm further for a blob of several people, each once |
| Seating.Assign | src/edge/occupancy.ts:419-427 | the loop over sorted pairs takes exactly the seats of the greedy claims |
| Seating.ClaimsFeasible | src/edge/occupancy.ts:419-427 | each seat is claimed at most once and each blob at most once per person it stands for |
| Seating.NoBlockingPair | src/edge/occupancy.ts:419-427 | for every pair in reach not claimed, its seat went to someone at least as near or its blob's people all got seats at least as near |
| Seating.GreedyIsHalfOptimal | src/edge/occupancy.ts:419-427 | no feasible assignment seats more than twice as many |
| Seating.AssignSeats | src/edge/occupancy.ts:408-427 | the seats of claims that use each seat once and each blob at most once per person, counted by their places; no assignment seats more than twice as many, and every pair in reach passed over was beaten |
| Seating.WindowIsRecent | src/edge/occupancy.ts:429-436 | a seat's window is always the last enterWindow observations, or all there were |
| Seating.SeatsFlipOnEvidence | src/edge/occupancy.ts:437-446 | over any run of frames in time order a free seat becomes taken exactly when at least enterMin of the last enterWindow frames, counted as frames, showed someone, and a taken one is released exactly when neither a sighting nor its becoming taken lies within releaseMs |
| Seating.SeatTrack.Update | src/edge/occupancy.ts:429-447 | on the fields: the window slides by one, a free seat becomes taken exactly on enterMin marks in it, a taken one stays exactly within releaseMs of its last time, and that time moves on a sighting or on becoming taken |
| HeatConv.RangeIsInFrame | src/algo/heatmodel.ts:122-128 | the precomputed output range of a tap is exactly the outputs whose tap falls inside the frame |
| HeatConv.AddTap | src/algo/heatmodel.ts:122-135 | one tap adds its products to its own plane and changes nothing else, with every index in range |
| HeatConv.Convolve | src/algo/heatmodel.ts:108-142 | the unchecked fast form equals the direct zero-padded strided sum, bias and relu included, at every output |
| HeatLaws.OneWeightShifts | src/algo/heatmodel.ts:108-142 | a layer with one weight for an output copies one plane of its input: moved by the weight's place in the kernel, thinned by the stride, scaled, over the bias, with every index written out |
| HeatLaws.WeightsAdd | src/algo/heatmodel.ts:108-142 | the sum before the bias is linear in the weights, so single weights determine it |
| HeatLaws.OutSizeIs | src/algo/heatmodel.ts:108-114 | there are as many outputs as places where the whole window lies in the padded input |
| HeatConv.AtInjective | src/algo/heatmodel.ts:116-135 | distinct channel, row and column never share a place in a tensor |
| HeatModel.IsHeatModel | src/algo/heatmodel.ts:60-106 | the checking loop answers yes exactly when the header reads as written out and the shapes can be worked out layer by layer to the two expected outputs |
| HeatModel.AcceptedIffRuns | src/algo/heatmodel.ts:56-106 | with a proper header and no convolution over 256 channels, accepted are exactly the models whose layers can all be run on an input and give the two outputs their shapes |
| HeatModel.HeatForward | src/algo/heatmodel.ts:144-170 | for every accepted model a wrong input size is an error, anything else yields 1x12x16 and 2x12x16 tensors which are what the layers define |
| HeatModel.Upsample | src/algo/heatmodel.ts:150-157 | every pixel is repeated as a 2x2 square |
| HeatModel.EvaluationDetermined | src/algo/heatmodel.ts:144-170 | the layers and the input leave exactly one possible result |
| Segmentation.Flood | src/edge/edgedetect.ts:78-93 | one flood collects everything its start pixel reaches, each pixel once, and nothing else |
| Segmentation.Components | src/edge/edgedetect.ts:74-95 | the foreground is split into exactly its 8-connected components |
| BlobSplit.PeaksApart | src/edge/edgedetect.ts:127-142 | two raw peaks are never neighbours, flat tops included |
| BlobSplit.FindPeaks | src/edge/edgedetect.ts:127-144 | the first 32 members no neighbour outranks, in member order |
| BlobSplit.ThinOfThins | src/edge/edgedetect.ts:147-154 | kept peaks are pairwise at least splitSep apart and every dropped one is near a kept one at least as strong |
| BlobSplit.Gather | src/edge/edgedetect.ts:156-174 | each member goes to its nearest peak, each accumulator is the sum over its members, and areas and heat add up to the component's |
| BlobSplit.SplitComponent | src/edge/edgedetect.ts:125-179 | the detections of one component: peaks, thinning, assignment and limits together, each detection inside the frame and within the limits |
| BlobLaws.NearIsClose | src/edge/edgedetect.ts:83-92 | neighbours are exactly the pixels at a squared distance of 1 or 2 |
| BlobLaws.SmoothInside | src/edge/edgedetect.ts:104-122 | away from the edges the smoothed value is the 1-2-1 kernel both ways over what is positive, sixteen in all |
| BlobLaws.SmoothCorner | src/edge/edgedetect.ts:104-122 | in the corner only the four pixels that are there count, nine in all |
| BlobLaws.CollectedIs | src/edge/edgedetect.ts:158-176 | what is gathered for a peak has as many pixels as went to it and their highest difference |
| BlobLaws.DetectionInside | src/edge/edgedetect.ts:158-180 | a person is reported inside the box of its own pixels, columns across and rows down |
| BlobLaws.DetectionAt | src/edge/edgedetect.ts:177-180 | everyone within the limits is reported with the weighted centre, in order, and nobody else |
| BlobLaws.ShiftIs | src/edge/edgedetect.ts:66-75 | a frame counts as shifted exactly when more than two fifths of its pixels are above the threshold |
| EdgeDetect.SmoothPositive | src/edge/edgedetect.ts:104-122 | every pixel becomes the 1-2-1 weighted mean of what is positive around it, within the frame |
| EdgeDetect.SmoothBetween | src/edge/edgedetect.ts:104-122 | smoothing never leaves the range of the positive values it averages |
| EdgeDetect.Segment | src/edge/edgedetect.ts:54-102 | a global shift yields nothing; otherwise the detections are those of every component in turn, cut at the maximum and flagged exactly when cut |
| DirectLink.BacklogCannotDrag | src/edge/nodelink.ts:498-520 | for any two packets admitted in one boot the later clock offset exceeds the earlier by at most 2000 ms plus 200 ppm of the time between |
| DirectLink.PromptPasses | src/edge/nodelink.ts:500-520 | over any run of one boot with true uptimes under half a wrap apart and delays spread over at most 2000 ms, no packet is refused |
| DirectLink.UnwrapExact | src/edge/nodelink.ts:500-508 | whatever the gap, the unwrapped step is right exactly when it is under 2^31 ms or no wrap happened |
| DirectLink.UnwrapMisses | src/edge/nodelink.ts:500-508 | half a wrap that ends on the wrap is read as half a wrap backwards |
| DirectLink.UptimesAreTrue | src/edge/nodelink.ts:498-520 | over any run whose admitted packets are less than 2^31 ms apart, unwrapped uptimes differ exactly as the true ones |
| DirectLink.RateLimited | src/edge/nodelink.ts:570-589 | in any stretch of messages at most two seconds' worth plus the rate over its duration passes, in messages and in bytes |
| DirectLink.SteadyPasses | src/edge/nodelink.ts:570-589 | a sender whose every message both rates have earned since the one before is never refused |
| DirectLink.LagFilter.Admit | src/edge/nodelink.ts:498-520 | passes exactly what starts a boot or lags the baseline by at most 2000 ms; the next baseline is written out, a refused packet leaves it, and other nodes' stay |
| DirectLink.Buckets.WithinRate | src/edge/nodelink.ts:570-589 | passes exactly what both refilled buckets cover, and only then takes one message and its bytes out |
| Graph.Order | src/algo/graph.ts:88-109 | a list exactly when ids are distinct and non-empty and the known edges have no cycle; then every node once and every known edge's source before its target |
| Graph.CountEdges | src/algo/graph.ts:89-95 | the initial counts and successor lists are those of the edges both of whose ends are nodes |
| Graph.Release | src/algo/graph.ts:102-106 | taking a node's edges out keeps every count exact and makes ready exactly what drops to zero |
| Graph.NoCycleWhenSorted | src/algo/graph.ts:88-109 | a list with sources first admits no cycle |
| Graph.StuckIsCyclic | src/algo/graph.ts:88-109 | nodes that all wait for one another lie on a cycle |
| Graph.UpstreamOf | src/algo/graph.ts:112-125 | exactly the nodes from which a walk along the edges leads to the given one |
| Frames.SentIsRead | src/edge/gwlink.ts:61-129 | what frame writes the reader reads back as that one message with nothing held; what it refuses is no byte type or a length no reader takes |
| Frames.ChunkingIsInvisible | src/edge/gwlink.ts:102-129 | however the stream is cut, the frames handed on and the state left are those of the whole |
| Frames.ThrowsAtTheSameByte | src/edge/gwlink.ts:102-129 | the pushes that throw are exactly the non-empty ones that reach or follow the first bad length |
| Frames.ReaderInvertsWriter | src/edge/gwlink.ts:61-129 | concatenated frames come back each once, in order, with nothing left over |
| Frames.NothingLost | src/edge/gwlink.ts:102-129 | for any bytes up to a bad length, the frames handed on, written out again, and the bytes held are exactly the bytes received |
| Frames.AddressRoundTrip | src/edge/gwlink.ts:69-89 | parseAddressed undoes addressed exactly for addresses of at most 255 characters |
| Frames.LongAddressIsLost | src/edge/gwlink.ts:69-89 | whatever the syntax of addresses, one of more than 255 characters that is written is not read back |
| Frames.ZoneIsLost | src/edge/gwlink.ts:69-89 | an IPv6 address with a zone of 248 letters is such an address |
| Frames.ParsedIsAddressed | src/edge/gwlink.ts:69-89 | whatever parses is exactly what addressed writes for it |
| FrameReader.Reader.Push | src/edge/gwlink.ts:102-129 | the reader on its buffers hands on the frames of byte-by-byte reading and throws exactly when given bytes that end at or past a bad length |
| HelloReplay.AtMostOnce | src/edge/gwlink.ts:425-447 | with one clock reading each, a gateway id, nonce and timestamp is accepted at most once over all runs with restarts, clock jumps and failed writes |
| HelloReplay.RepeatStraddlesExpiry | src/edge/hello-replay.ts:39-49 | with the two readings the code takes, a repeat needs the window check to pass and the second reading to lie past the expiry |
| HelloReplay.RepeatableWhen | src/edge/gwlink.ts:425-434 | the exact condition: some run accepts a HELLO and accepts it again at given readings exactly when the first is in the window and the second past the expiry |
| HelloReplay.FreshIsAccepted | src/edge/gwlink.ts:425-447 | over every run, a HELLO in its window, read no earlier than those before it, whose gateway and nonce no unexpired one of them has, is accepted while fewer than 4096 of them are unexpired, if the write succeeds and the session stays open |
| HelloReplay.ReconnectIsAccepted | src/edge/hello-replay.ts:39-49 | a gateway that reconnects with a fresh nonce, however soon, is accepted both times |
| HelloReplay.JournalAlwaysReads | src/edge/hello-replay.ts:14-27 | after any run the file is one the strict reader accepts: bounded, distinct keys, sound numbers |
| HelloReplay.Gateways.Accept | src/edge/hello-replay.ts:39-49 | new exactly when the write is done, the clock is not below the file's, no unexpired entry has that gateway and nonce, and fewer than 4096 entries, counted by their places, are unexpired; the file then holds those and the new one last |
| HelloReplay.Gateways.OnHello | src/edge/gwlink.ts:425-447 | accepted exactly by the window, the memory, the file, the write and the open session, each written out, beside one step of the model |
| Protocol.OpensBuilt | src/edge/protocol.ts:173-227 | a built datagram opens to what was put in exactly when its tag is admitted, and is refused otherwise |
| Protocol.BuildsOpened | src/edge/protocol.ts:350-367 | with one accepted key, whatever opens is byte for byte the datagram built from it |
| Protocol.ReportRebuilds | src/edge/protocol.ts:200-228 | rebuilding a parsed REPORT payload reproduces its bytes |
| Packets.ParsedReportRebuilds | src/edge/protocol.ts:173-228 | so does rebuilding the whole datagram, header and tag included |
| Packets.RawSurvives | src/edge/protocol.ts:401-416 | a RAW frame built under an accepted key with a non-zero tag parses to its quantised temperatures |
| WireLayout.OpensIff | src/edge/protocol.ts:185-196 | what opens is exactly what begins TM and version 1, has the length it says, and ends in eight zeros where allowed or the tag of the rest under an accepted key |
| WireLayout.OpenedIs | src/edge/protocol.ts:197-198 | where type, address, boot, sequence and uptime stand in it, least significant byte first |
| WireLayout.KindIs | src/edge/protocol.ts:201-240 | the type byte decides what a payload is read as |
| WireLayout.ReportIs | src/edge/protocol.ts:203-228 | a REPORT byte by byte: frame number, four signed hundredths of a degree, flags, count |
| WireLayout.DetectionIs | src/edge/protocol.ts:208-216 | the seven bytes of a person and their units |
| WireLayout.RawIs | src/edge/protocol.ts:230-240 | a RAW payload byte by byte |
| WireLayout.DetectionSurvives | src/edge/protocol.ts:378-399 | a person within the ranges of the format is read back to within half a unit in every field |
| WireLayout.FrameIs | src/edge/gwlink.ts:61-68 | a frame of the gateway link byte by byte |
| Packets.ParseDetections | src/edge/protocol.ts:205-216 | the loop decodes the seven-byte groups in order |
| Packets.Identity.BuildReport | src/edge/protocol.ts:378-399 | the built datagram is the specified one, and the sequence number is used up even when the build fails |
| Packets.Identity.BuildRaw | src/edge/protocol.ts:401-416 | likewise for RAW, refused exactly for no pixels, a header that does not fit or a base temperature outside the wire's range |
| RawFrames.RawReadsBack | src/edge/protocol.ts:230-240 | base, step and pixels of a RAW payload come back as written |
| RawFrames.PixelError | src/edge/edgedetect.ts:184-188 | a pixel decodes to within half a step exactly when its temperature is at most 255.5 steps above the base |
| RawFrames.AllWithinHalfStep | src/edge/protocol.ts:401-416 | when the step need not be capped, every temperature decodes to within half a step and no byte is clamped |
| ParamsSafety.ReturnsToFirstReport | src/algo/params.ts:219-301 | through any run of applies, failed dispatches, reverts and restarts without commit or save, an unresolved change returns to the value reported before its first apply |
| ParamsSafety.GoneOnlyWhenBack | src/algo/params.ts:143-166 | through any failures and crashes without commit or save since an apply, a change is gone only after, later than that apply, a restore to its first value was sent, one was answered after that, and a report newer than the last one sent showed that value with a command at least as new as the answered one |
| ParamsSafety.GoneSinceRest | src/algo/params.ts:143-166 | the same from any state in which nothing of the parameter is on its way back |
| ParamsSafety.JournalBeforeCommand | src/algo/params.ts:219-359 | over any such run, whenever a command goes out, to apply or to restore, the journal holds the value reported before the first apply, or else the command is a restore and one has already landed since every one of the applies; a restore sends exactly that value |
| ParamsSafety.CrashKeepsTheWayBack | src/algo/params.ts:71-91 | after a crash anywhere every change not yet on its way back is pending again, due at once, with the same way back |
| ParamsSafety.RestoreResolves | src/algo/params.ts:319-359 | over any run, a restore that is sent and answered resolves the change at the first look at a report that shows it taken, whatever else happens in between but a start and further commands for the parameter, and whether report or answer comes first |
| ParamsSafety.FlashTakesSettled | src/algo/params.ts:366-387 | while a node is being saved to flash none of its pending changes is in flight or being restored |
| ParamsSafety.JournalStarts | src/algo/params.ts:71-91 | as long as nodes report values within the limits, the next start takes every journal that keeps to the limits on entries and size |
| ParamsSafety.StartsAgainIff | src/algo/params.ts:71-91 | exact condition for any apply: a journal that holds its change is taken by the next start exactly when the value to return to is within the limits, there is room and the text is at most 8 MB; otherwise the apply left the journal found or the one before it |
| ParamsSafety.OddReportStopsStart | src/algo/params.ts:219-240 | a run whose one report is out of range and whose journal no start takes |
| Params.StepKeeps | src/algo/params.ts:105-400 | any step that neither commits a change nor saves its node keeps its way back in memory and journal until an answered restore is found, in a report newer than the last command, to have landed |
| ParamServer.ParamBroker.Apply | src/algo/params.ts:219-292 | journal first, then send: a command goes out exactly when the change is allowed and saved; the change then recorded is written out, due 15 minutes later, with every other change as it was; otherwise memory is as before |
| ParamTimers.DueAfterFifteenMinutes | src/algo/params.ts:263-400 | over every run, a change sent at time t, with no new apply, refused command, answered restore or start since, is due at no time before t + 15 minutes and at every time from then on while it is pending, which it is unless committed or saved |
| ParamTimers.KeptIsNeverSentBack | src/algo/params.ts:304-387 | a change committed, or saved to flash with its node, is off the timer for good: until it is applied anew it is never due and never sent back, crashes and starts included |
| ParamServer.ParamBroker.Confirm | src/algo/params.ts:143-166 | what a late enough report shows is marked, or, if it was on its way back, gone once that is saved; nothing else is touched |
| ParamServer.ParamBroker.Reverted | src/algo/params.ts:319-359 | a refused restore is tried again in 5 seconds; an answered one is on its way back, aimed at the old value, and looked at once the file is written |
| ParamServer.ParamBroker.Persisted | src/algo/params.ts:366-387 | after a save that succeeded exactly the node's changes are gone, from memory and file; otherwise all stay |
| ParamServer.ParamBroker.Load | src/algo/params.ts:71-91 | a start takes exactly the journals that are readable and not too large, with every change due at once |
| ParamServer.ParamBroker.Sweep | src/algo/params.ts:394-400 | every due change that is free is sent its old value, and no other change is touched |
| EdgeTuning.RestoredIff | src/algo/params.ts:319-359 | two sweeps a retry apart restore enterMin and enterWindow, in any order, exactly when the values to return to agree with each other and no node a change was made from is being saved to flash |
| EdgeTuning.ReturnsToStart | src/algo/params.ts:388-400 | without commits, whatever was applied, reverted, saved and restarted, two sweeps bring back the settings the edge was last started with, exactly when no such save is in flight |
| EdgeTuning.DueAfterFifteenMinutes | src/algo/params.ts:263-400 | a change stays as it was made until a new apply or a revert of the setting, a commit, a start, or a sweep 15 minutes later |
| EdgeTuning.SaveCanDelay | src/algo/params.ts:319-326 | a run in which a save in flight keeps a due change from being put back |
| EdgeTuning.BlockedUntilKeptOrRestarted | src/edge/occupancy.ts:138-155 | once the values to return to disagree, no run without a commit or a restart ends the recovery; a restart, or keeping what is pending, does |
| EdgeTuning.CommitCanBlock | src/algo/params.ts:304-316 | a run with one commit that makes them disagree |
| EdgeTuning.Tuner.ApplyValue | src/algo/params.ts:219-292 | accepted exactly for a value in 1 to 60 that is saved, with no save to flash in flight, and whose nearest whole number keeps the minimum within the window; the change then recorded is written out, due 15 minutes later; a refused one leaves no trace |
| Recording.KeptExactlyOnceInOrder | src/algo/autorecord.ts:80-118 | in auto with non-decreasing times a frame is written exactly once if and only if a person was seen at most the hold before or the pre-roll after it, in arrival order |
| Recording.RecordSwitch.Presence | src/algo/autorecord.ts:80-90 | a sighting runs the waiting writes of its own node that are recent enough, in order |
| Recording.RecordSwitch.Gate | src/algo/autorecord.ts:108-118 | a frame is written at once or held exactly as the mode and the last sighting say |
| Outbox.StoreKeepsRows | deploy/training/worker.py:108-154 | a batch changes no stored row, and verifies exactly the records the database then holds in full |
| Outbox.BatchIsStored | deploy/training/worker.py:98-145 | what a batch leaves, row by row: every frame has a row, every fitting record's pair has one, each new row is the first of its id, and there is no other |
| Outbox.SafeIff | deploy/training/worker.py:116-150 | the three checks of the worker come to agreement column by column, pair and thermal frame included |
| Outbox.FreshIsVerified | deploy/training/worker.py:108-154 | a record with ids of its own whose thermal frame, if it names one, is there is stored as it is and verified |
| Outbox.FreshIsDrained | deploy/training/worker.py:157-188 | and when its batch is acknowledged its rows are in the database and its files are gone |
| Outbox.RetryChangesNothing | deploy/training/worker.py:98-154 | storing the same batch again changes nothing and verifies the same records |
| Outbox.DeletedOnlyWhenHeld | deploy/training/worker.py:157-188 | a file is deleted only when committed rows match all frames and the pair of its record, whatever was refused, undone or unheard |
| Outbox.AckedDeletesExactly | deploy/training/worker.py:157-188 | after an acknowledged transaction exactly the files of such records are gone |
| Outbox.RefusedHoldsBackNobody | deploy/training/worker.py:170-181 | on the slow path, all transactions acknowledged, every record the database takes by itself is verified, whatever others are refused |
| Outbox.SlowPathDeletesExactly | deploy/training/worker.py:170-188 | there exactly the files of the records taken by themselves are gone |
| Outbox.NothingLost | deploy/training/worker.py:157-188 | over any run of arrivals and drains, a file is in the outbox or its rows are in the database |
| Outbox.Worker.Store | deploy/training/worker.py:108-154 | row by row: every frame of the batch has a row, a new row is the first frame of its id, a new pair the first of its id among records that fit, old rows stay; verified is exactly what then agrees column by column |
| Outbox.Worker.DrainFiles | deploy/training/worker.py:157-188 | the whole pass, fast or record by record, leaves exactly the specified database and outbox |

## Left out

- Ingest.handle and ReplayStore.accept: the synchronous path beside handleDurable; it shares the checks and the journal lines that are modelled.
- Ingest routes, acknowledgements, rate and loss statistics and the tables of rejected sources: bounded maps that add easy members.
- The byte budget of waiting packets is a flag of the arrival step, and the 8 MB size limit of the replay journal is not modelled; the size of the parameter journal is a parameter of a start.
- A checkpoint is replaced whole or not at all; a directory fsync that fails after the rename is modelled for the HELLO and parameter files only.
- JSON text: lines and files are record values, with one value for a malformed line.
- The PostgreSQL stores, leases and durable rollouts.
- Rollout labels, percentages, error texts, the history list and restore(); a stopped pilot therefore does not say whether it reached the history.
- Rollouts.select: the chosen nodes are a parameter. Each step reads the clock once, and callbacks are not reentrant.
- Occupancy snapshot, table states, authorities, nearest table and heat references: projections of what is modelled.
- heatDecode and the sigmoid: reading peaks off the heatmap.
- The median noise estimate: the detection threshold is a parameter. The peak temperature of a detection is not carried.
- Floating-point rounding, including the single-precision arrays; hypot is compared squared.
- Session handshake, activation, heartbeats and the closing of a session after a hundred dropped packets.
- graph.ts validate: a list of independent messages.
- Encrypted packets and the hexadecimal form of a node's address on the wire.
- Packets.ParsePacket: the payloads of STATUS and OTA_STATUS packets stay bytes.
- A frame callback that throws inside FrameReader.push.
- HELLO syntax, signatures and the session that follows; the size of the HELLO file in bytes.
- The audit log of parameter changes, the reasons an apply is refused with, and the edge settings other than enterMin and enterWindow, which nothing constrains together.
- Recording with a mode changed on the way, and the file that remembers the mode.
- worker.py parse_file and jpeg_size: what a file parses to is a parameter, and one that does not parse stays where it is.
