# A model of an IEEE 1588-2008 ordinary clock

The project models lwip-ptp, a PTPv2 ordinary clock for lwIP, and states what its parts do over every input and every
run. Six parts are modelled, each in the form the program gives it: structures that the program updates in place are
classes, its loops are loops, and every method is tied by its contract to a function of the values before the call;
what the program promises is then stated about those functions.

- **Arithmetic** (`Arith`): signed (seconds, nanoseconds) time in 32-bit fields, and the integer logarithm.
- **Servo** (`Filter`, `FilterRuns`, `FilterLimits`, `FilterWords`, `FilterHull`, `Servo`, `ServoExchange`): the adaptive
  exponential smoother, the offset and delay measurements, the clamped controller. The program runs in 32-bit words,
  modelled with their wrap-around (`StoredStep`, `StoredRun`, `StoredFeed`); exact integers are modelled beside them
  (`Step`, `Run`, `Feed`), and each row says which of the two it is about.
- **Best master clock** (`BmcOrder`, `BmcDecision`, `Election`, `ForeignMasters`): the data set comparison, the scan and
  the state decision, the election among N clocks, the foreign-master ring.
- **Port** (`Port`, `PortInvariants`, `PortSteps`, `PortRuns`, `PortResults`, `PortTable`, `PortClock`, `MixedPair`,
  `StaleRun`, `CalibratedRun`): one call of `doState` as a function of the state and of what the environment does
  (timers that expire, what is received, which sends fail, how large the offset comes out), the class that computes it
  in place, and statements about all runs from power-up.
- **Codec** (`Octets`, `Codec`, `CodecRuns`, `Packer`): messages packed one over the other into a single buffer.
- **Network** (`Net`): the packet ring with its mailbox, and the chain copy.

`PortServo` and `PortCodec` join the parts: servo and port, port and wire.

Two places of the program differ from what they are evidently for: the sign with which the scan replaces its best record
(src/bmc.c:414-416 against src/bmc.c:253-256 and 383), and the flag set on a match in the foreign table
(src/bmc.c:116). Both forms are modelled, as the values `AsWritten` and `Intended` of `ScanRule` and `MatchRule`.

What the model shows about the program as written:

- With three clocks or more, every clock but the worst chooses MASTER; with a scan that keeps the winner exactly one does.
- In the foreign table every announce takes a slot of its own, those of a known sender too, so that one sender can fill
  it. Even with the flag set on a match a sender can occur twice: after an announce timeout the search starts at a slot
  out of use and misses one in use. Over runs that happens exactly for a peer-to-peer port that can be master.
- The smoother never leaves 32 bits, keeps to the hull of its samples and tracks the rational recurrence exactly when the
  most negative sample times 2^s does not exceed 2^31 in magnitude. The guard looks at the larger of output and sample,
  not at magnitudes; the delay filter (s = 6) is unsafe below -2^25 ns.
- A constant sample is reached and kept from every state where no fall towards it can overflow, for the delay filter down
  to -2^25 - 63 ns. Below that it may not be: after a warm-up on 21.7 ms the delay filter goes round a cycle of five
  calls for ever on a constant of about -0.86 s.
- A parent's newer announce changes the data sets but not the foreign table, and the next decision undoes the change.
- The nanosecond limit of `updateClock` decides nothing: the clock is set exactly when the raw offset is a second or more.
- A FollowUp is accepted for a Sync of another master when the parent changes in between.
- A delay response is lost when the request counter has just wrapped to -32768.
- Where the clock may not be set, an offset of whole seconds ahead is slewed with instead of against, because the sign of
  the nanoseconds decides (src/servo.c:280).
- A delay response is accepted again each time it is repeated before the next request, and a peer's follow-up whomever it
  is for.
- A fault after start-up is left behind by following the recommended state; services are started exactly once.
- The branch of `bmcStateDecision` for an empty table is dead.
- An Announce carries the correction field of whatever was packed before it; a FollowUp does not, because a Sync always
  precedes it.

Where a comment and the code disagree the code is followed: src/def/opt.h calls its offset limit 100 ms and gives it the
value of a second, and the code compares with the value.

## Model

| member | source | states |
|---|---|---|
| `Arith.CanonicalIsUnique` | src/arith.c:79-92 | Every duration has exactly one pair with less than a second of nanoseconds and agreeing signs, and it is the truncated quotient and remainder. |
| `Arith.TimeInternal.NormalizeTime` | src/arith.c:79-92 | For any two 32-bit fields, canonical or not, leaves the canonical pair of the duration they denote, wrapped at most once around the seconds. |
| `Arith.AddTime` | src/arith.c:97-103 | For any two pairs of 32-bit fields stores the canonical pair of their sum, also when the result is one of the operands. |
| `Arith.SubTime` | src/arith.c:108-114 | For any two pairs of 32-bit fields stores the canonical pair of their difference, also when the result is one of the operands. |
| `Arith.Div2Time` | src/arith.c:119-126 | Halves the duration, truncated toward zero; never overflows. |
| `Arith.SumExactness` | src/arith.c:97-103 | For canonical operands a sum is exact if and only if its seconds fit 32 bits; it is canonical in any case. |
| `Arith.DifferenceExactness` | src/arith.c:108-114 | For canonical operands a difference is exact if and only if its seconds fit 32 bits and the seconds fields do not differ by 2^31. |
| `Arith.SumExactnessOfFields` | src/arith.c:97-103 | For any two pairs of 32-bit fields: the exact condition under which the sum is exact. |
| `Arith.DifferenceExactnessOfFields` | src/arith.c:108-114 | For any two pairs of 32-bit fields: the exact condition under which the difference is exact. |
| `Arith.ResultsAreWellFormed` | src/arith.c:79-114 | Sums and differences of any two pairs of 32-bit fields are canonical. |
| `Arith.SubUndoesAddExactlyWhen` | src/arith.c:97-114 | Subtracting what was added restores a time for every addend, even when the sum wrapped, if and only if the time is no fraction beyond the outermost whole seconds. |
| `Arith.TopIsNotRestored` | src/arith.c:97-114 | An addend for which a fraction after the last whole second is not restored. |
| `Arith.BottomIsNotRestored` | src/arith.c:97-114 | An addend for which a fraction before the first whole second is not restored. |
| `Arith.SumCommutes` | src/arith.c:97-103 | Addition is commutative with zero for its unit. |
| `Arith.SumAssociates` | src/arith.c:97-103 | Addition is associative where the two inner sums fit. |
| `Arith.SumHasInverses` | src/arith.c:97-114 | Every time but those of -2^31 seconds has an inverse, its difference from zero. |
| `Arith.ScaledNanosecondsToInternalTime` | src/arith.c:18-37 | A 64-bit interval in 2^-16 ns becomes the canonical pair of its truncation, except for the least number, which comes out positive. |
| `Arith.ConversionRoundTrip` | src/arith.c:42-73 | Conversion to a timestamp and back restores a time, whatever the destinations held, if and only if it is non-negative and before second 2^31 - 1. |
| `Arith.ToInternalTime` | src/arith.c:62-73 | Every received timestamp gives a pair of 32-bit fields, whose nanoseconds may exceed a second. |
| `Arith.FloorLog2` | src/arith.c:132-145 | Returns the power of two that bounds its argument from below, -1 for zero. |
| `Filter.Smoother.Filter` | src/servo.c:86-149 | Updates the filter in place to the step in 32-bit words; the output stays the floor of the sum at its order. |
| `Filter.Smoother.ChooseOrder` | src/servo.c:103-129 | Lowers the order during warm-up and under the guard, and holds the count at 2^s. |
| `Filter.Smoother.ChangeOrder` | src/servo.c:131-136 | Rescales the sum to another order in place. |
| `Filter.OrderOf` | src/servo.c:74-83 | The order of a number is the logarithm of its magnitude, 0 for 0. |
| `Filter.RescaleKeepsFloor` | src/servo.c:131-136 | Changing the order leaves the output where it is, even where bits are dropped. |
| `Filter.FloorMovesToward` | src/servo.c:138-140 | A step moves the output toward the sample and not beyond. |
| `Filter.NextFloor` | src/servo.c:131-140 | Each output lies between the previous output and the sample. |
| `Filter.StoredStepExactness` | src/servo.c:138-143 | The step in words keeps the filter coherent in any case, and is the exact step if and only if the exact sum fits. |
| `FilterRuns.StoredRunIsExact` | src/servo.c:86-149 | Over any run in which nothing overflows, words and exact integers agree. |
| `FilterRuns.CountOfRun` | src/servo.c:103-118 | After k samples the count is the smaller of k and 2^s. |
| `FilterRuns.OutputInHull` | src/servo.c:86-149 | In exact integers, over every run the output lies in the hull of the samples. |
| `FilterRuns.RunTracksRational` | src/servo.c:86-149 | In exact integers, over every run the sum stays less than one unit from the rational recurrence Y := Y + (x - Y) / 2^s with the same orders. |
| `FilterLimits.SafeExactlyWhen` | src/servo.c:125-129 | All runs with samples from -low to high stay in 32 bits if and only if low * 2^s <= 2^31. |
| `FilterLimits.NonNegativeIsSafe` | src/servo.c:125-129 | Non-negative samples never overflow, at any order. |
| `FilterLimits.ConfiguredOrders` | src/servo.c:125-129 | The offset filter is safe for all samples below a second; the delay filter if and only if they stay above -2^25 ns. |
| `FilterLimits.LargeSamplesOverflow` | src/servo.c:125-140 | Large negative samples followed by a zero overflow: the failing runs. |
| `FilterLimits.ConstantRun` | src/servo.c:86-149 | In exact integers a constant input is reproduced without a remainder from the first call. |
| `FilterLimits.ConstantInputSettles` | src/servo.c:86-149 | In exact integers a constant input is reached from any state after finitely many calls and kept for ever. |
| `FilterLimits.Reaches` | src/servo.c:86-149 | In exact integers some number of calls reaches it; the proof descends in distance, remaining order and remaining slack. |
| `FilterLimits.OrderNeverFalls` | src/servo.c:103-129 | For a repeated non-negative sample the order never falls. |
| `FilterHull.StoredConstantRun` | src/servo.c:86-149 | In words a constant input is reproduced without a remainder from the first call of a fresh filter, whatever the sample. |
| `FilterHull.HullKeptExactlyWhen` | src/servo.c:86-149 | In words the output of every run of samples from -low to high of a fresh filter lies in the hull of its samples if and only if low * 2^s <= 2^31. |
| `FilterHull.TracksKeptExactlyWhen` | src/servo.c:86-149 | In words the sum of every such run stays less than one unit from the rational recurrence with the orders chosen if and only if low * 2^s <= 2^31. |
| `FilterHull.EscapesHull` | src/servo.c:125-140 | A run of negative samples with a positive output, for every order from 2 on. |
| `FilterHull.EscapesTracking` | src/servo.c:125-140 | The same run is at least a unit off the rational recurrence. |
| `FilterHull.NeverReached` | src/servo.c:86-149 | In words a fresh delay filter warmed up on 21.7 ms never outputs a constant of -864562916 ns that follows, in any number of calls. |
| `FilterWords.ConstantSettlesInWords` | src/servo.c:86-149 | In words, from every state the program can be in, a constant input is reached exactly after finitely many calls and kept for ever, if no fall towards it can overflow. |
| `FilterWords.DescentSafeFor` | src/servo.c:125-129 | No fall towards x can overflow where x * 2^s >= -2^31, so towards no non-negative sample. |
| `FilterWords.DescentSafeExactlyWhen` | src/servo.c:125-140 | The condition is sharp: it holds if and only if no step from the sample or above leaves 32 bits. |
| `FilterWords.ConfiguredDescents` | src/servo.c:125-129 | Falls of the offset filter are safe towards every sample below a second; those of the delay filter if and only if the sample is at least -2^25 - 63 ns. |
| `FilterWords.ConfiguredConstantsSettle` | src/servo.c:86-149 | In words, from every state, the offset filter settles on every constant below a second, and the delay filter on those of at least -2^25 - 63 ns. |
| `FilterWords.SettlesExactlyWhen` | src/servo.c:86-149 | For every sample and from every state the filter settles if and only if it leaves 32 bits finitely often. |
| `FilterWords.SettledStep` | src/servo.c:86-149 | In words an output equal to the sample is kept, whatever the sample. |
| `FilterWords.NegativeConstantCycles` | src/servo.c:125-140 | A reachable state of the delay filter to which five calls with -864562916 ns lead back, none of them with that output. |
| `Servo.StoredOutputBelowSecond` | src/servo.c:86-149 | Fed less than a second, a filter returns less than a second even if its sum has overflowed. |
| `Servo.ControllerIsExact` | src/servo.c:285-310 | Where nothing overflows the words compute the proportional-integral law with both outputs limited as `Servo.ClampIsNearest` says. |
| `Servo.ClampIsNearest` | src/sys_time.c:36-39 | A limited rate is the value of the adjustment range nearest to the one asked for, and the only nearest one. |
| `Servo.ClampIsMonotone` | src/sys_time.c:36-39 | Limiting keeps order. |
| `Servo.ControllerOpposesOffset` | src/servo.c:285-310 | Negative feedback, where nothing overflows: a clock that is ahead and was not yet held back for being behind gets no smaller drift and no positive rate, and the mirror image. |
| `Servo.ControllerSafeExactlyWhen` | src/servo.c:285-310 | No computation of the controller overflows, for any offset below a second and any gains, if and only if the sync interval is at least half a second. |
| `Servo.ServoClock.constructor` | src/servo.c:28-71 | A cleared servo record with its options is valid. |
| `Servo.ServoClock.InitClock` | src/servo.c:28-71 | Clears drift, filters and pending two-step exchanges and keeps the record valid. |
| `Servo.ServoClock.UpdateOffset` | src/servo.c:152-205 | Stores ingress - origin - correction; where every intermediate time is within reach, the nanoseconds smoothed are those of that less the mean path delay end to end, less the peer delay peer to peer, and less nothing otherwise; the events raised. |
| `Servo.ServoClock.MeasureOffset` | src/servo.c:162-179 | Where every intermediate time is within reach, the offset before smoothing has exactly the nanoseconds of ingress - origin - correction less the delay of the configured mechanism. |
| `Servo.ServoClock.RawOffsetInReach` | src/servo.c:162-179 | The offset is the canonical pair of those nanoseconds, for each of the three mechanisms. |
| `Servo.MeasuredIsSmoothed` | src/servo.c:181-192 | Less than a second goes through the filter and comes out without seconds; a second or more passes and leaves the filter alone. |
| `Servo.ServoClock.UpdateDelay` | src/servo.c:208-230 | Once an offset exists, stores half the sum of the two legs, smoothed when below a second. |
| `Servo.ServoClock.UpdatePeerDelay` | src/servo.c:233-259 | Stores half the turnaround less the correction, smoothed when below a second. |
| `Servo.ServoClock.Steer` | src/servo.c:285-310 | Keeps the drift within the adjustment range, applies the limited rate, and never follows an offset the clock has not been steered against, for sync intervals of at least half a second. |
| `Servo.ServoClock.UpdateClock` | src/servo.c:262-310 | Sets the clock, slews it at the full rate with the sign of the nanoseconds, or steers it against the offset, and keeps the record valid in each case. |
| `Servo.ServoClock.Synchronize` | src/protocol.c:741-744 | The clock is set if and only if that is allowed and the raw offset is a second or more; within reach the raw offset is ingress - origin - correction less the delay of the configured mechanism, and the clock is set to the time less that. |
| `Servo.WholeSecondOrMore` | src/servo.c:262-284 | Seconds differ from zero if and only if the magnitude is at least 10^9 ns. |
| `Servo.SlewsAgainstExactlyWhen` | src/servo.c:280-281 | Where the clock may not be set, an offset of a second or more is slewed against if and only if it is not one of whole seconds ahead, which is slewed with. |
| `ServoExchange.EndToEnd` | src/servo.c:208-230 | The four timestamps of an end-to-end exchange give the truncated mean of the two path delays, and with symmetric paths the delay and the clock offset exactly. |
| `ServoExchange.PeerToPeer` | src/servo.c:233-259 | The two-step peer exchange gives the mean path delay whatever the offset of the responder. |
| `ServoExchange.PeerToPeerOneStep` | src/servo.c:244-249 | The one-step peer exchange, whose responder has put its turnaround into the correction, gives the same. |
| `ServoExchange.OffsetShown` | src/servo.c:152-205 | On the clock record: with the mean path delay known, the first Sync through a fresh filter leaves exactly the offset of the clocks. |
| `ServoExchange.DelayShown` | src/servo.c:208-230 | On the clock record: after a Sync, a symmetric delay exchange through a fresh filter leaves exactly the path delay. |
| `ServoExchange.SymmetricExchange` | src/servo.c:152-230 | On the clock record: Sync, delay exchange, filters cleared, Sync leave exactly the path delay and the offset of the clocks. |
| `BmcOrder.ComparisonAntisymmetric` | src/bmc.c:261-365 | Exchanging the operands changes the sign, on all inputs. |
| `BmcOrder.ComparisonIsLexicographic` | src/bmc.c:261-365 | With consistent descriptions and no record from the receiver, the comparison is the lexicographic order on (priority1, class, accuracy, variance, priority2, grandmaster, steps, sender). |
| `BmcOrder.ComparisonTransitive` | src/bmc.c:261-365 | Hence transitive. |
| `BmcOrder.CycleExactlyWhen` | src/bmc.c:261-365 | Two descriptions of one grandmaster belong to a cycle of three records if and only if the one that wins by topology has the worse attributes. |
| `BmcOrder.TieExactlyWhen` | src/bmc.c:300-365 | Which records compare equal: one grandmaster, and the same sender at one distance, or two distances one apart of which the farther is the receiver; of any other two with one grandmaster the nearer is better, and at one distance the one with the lesser sender. |
| `BmcDecision.FindBest` | src/bmc.c:408-420 | The loop over the table computes the scan, for either sign. |
| `BmcDecision.RoleByClass` | src/bmc.c:381-401 | PASSIVE is for clocks of class below 128 and SLAVE for the others. |
| `BmcDecision.ScanIsExtreme` | src/bmc.c:408-420 | The scan returns the first extremal record: nothing beats it with the intended sign, it beats nothing with the sign as written. |
| `BmcDecision.DecisionOverTable` | src/bmc.c:368-424 | The decision is MASTER if and only if the local clock beats every record (intended sign), or some record (sign as written). |
| `Election.ChoiceByRank` | src/bmc.c:368-424 | A clock that holds the announces of the others chooses by its rank alone. |
| `Election.IntendedElectsOne` | src/bmc.c:368-424 | For N clocks with distinct identities, class 128 to 254, not slave-only, a scan that keeps the winner leaves exactly one MASTER, the first in rank, and N - 1 SLAVE. |
| `Election.AsWrittenElectsAllButOne` | src/bmc.c:408-424 | As written, every clock but the last in rank chooses MASTER. |
| `Election.SingleMasterExactlyWhen` | src/bmc.c:408-424 | As written, a single master is elected if and only if N = 2. |
| `Election.SlavesFollowTheMaster` | src/bmc.c:368-424 | With the intended scan every slave settles on the record of the one master. |
| `ForeignMasters.Added` | src/bmc.c:102-146 | Keeps the ring valid: count within capacity, next index equal to the count until the ring is full. |
| `ForeignMasters.ForeignMasterDS.AddForeign` | src/bmc.c:102-146 | The search and append loop computes that addition in place. |
| `ForeignMasters.ForeignMasterDS.Reset` | src/protocol.c:444-445 | Empties the table and leaves the index of the best record. |
| `ForeignMasters.SearchFindsExactly` | src/bmc.c:108-125 | Started inside the count, the modular search finds a sender if and only if some record has it. |
| `ForeignMasters.StaleSearchFindsExactly` | src/bmc.c:108-125 | Started at a slot left from before a reset, the search finds a sender if and only if that slot or some slot in use but one has it; which one it misses. |
| `ForeignMasters.StaleStartMisses` | src/bmc.c:108-125 | A ring of two slots in which that happens to the only record. |
| `ForeignMasters.KnownSenderUpdated` | src/bmc.c:108-125 | An announce of a known sender brings the record of it that comes first around the circle up to date and counts it, unless that is the slot then taken. |
| `ForeignMasters.IntendedUpdatesInPlace` | src/bmc.c:108-125 | With the flag set and senders distinct it changes that record and nothing else. |
| `ForeignMasters.AddedIsHeld` | src/bmc.c:102-146 | The announce added is held by a record in use, and by a new one without a count if it was not a match, if the search starts inside the count or the flag is never set. |
| `ForeignMasters.IntendedKeepsDistinct` | src/bmc.c:102-146 | With the flag set on a match one addition keeps senders pairwise distinct, if the search starts inside the count. |
| `ForeignMasters.AsWrittenKeepsDistinctExactlyWhen` | src/bmc.c:102-146 | As written they do if and only if the sender is in no slot but the one overwritten. |
| `ForeignMasters.TableIsLog` | src/bmc.c:102-146 | As written, after any sequence of additions and scans since a reset, slot h modulo the capacity was taken by announce number h, for the last announces up to the capacity, and holds that announce or a later one of its sender; the slot taken last holds the last announce. |
| `ForeignMasters.OneSenderFillsTable` | src/bmc.c:127-145 | As many announces in a row as there are slots put every other sender out. |
| `Octets.CorrectionRoundTrip` | src/msg.c:16-37 | Every signed 64-bit correction survives being packed as two words. |
| `Octets.Store` | src/msg.c:40-53 | Overwrites a field of the buffer in place and nothing else. |
| `CodecRuns.HeaderOfPack` | src/msg.c:56-306 | A message shows its own type, length, number, control, interval; version, domain, flags and sender stay, and the correction stays under Announce and FollowUp. |
| `CodecRuns.BodyOfPack` | src/msg.c:56-306 | The body unpacked is the body packed, for all eight messages. |
| `CodecRuns.AnnounceRoundTrip` | src/msg.c:56-94 | Every field of an announce survives, with a zero origin timestamp. |
| `CodecRuns.TimestampRoundTrip` | src/msg.c:97-121 | Every timestamp survives. |
| `CodecRuns.RequesterRoundTrip` | src/msg.c:177-210 | The requesting port survives. |
| `CodecRuns.ReceiverSeesLastMessage` | src/msg.c:16-306 | After the start-up header and any sequence of packs into the one buffer a receiver unpacks the last message and the sender's station; the correction is that of the last message that wrote one. |
| `CodecRuns.FollowUpMatchesSync` | src/msg.c:97-166 | A FollowUp carries the number of its Sync, across the wrap of the counter, and correction 0. |
| `CodecRuns.AnnounceCarriesStaleCorrection` | src/msg.c:56-77 | An Announce after a response carries that response's correction. |
| `Packer.MsgPackHeader` | src/msg.c:40-53 | The buffer becomes the start of the runs of CodecRuns, every other octet untouched. |
| `Packer.MsgPackAnnounce` | src/msg.c:56-77 | The buffer takes the step of an Announce in the runs for which unpacking is proved; octets the message does not own stay. |
| `Packer.MsgPackSync` | src/msg.c:97-113 | The buffer takes the step of a Sync in the runs for which unpacking is proved; octets the message does not own stay. |
| `Packer.MsgPackFollowUp` | src/msg.c:151-166 | The buffer takes the step of a FollowUp in the runs for which unpacking is proved; octets the message does not own stay. |
| `Packer.MsgPackDelayReq` | src/msg.c:124-140 | The buffer takes the step of a DelayReq in the runs for which unpacking is proved; octets the message does not own stay. |
| `Packer.MsgPackDelayResp` | src/msg.c:177-200 | The buffer takes the step of a DelayResp in the runs for which unpacking is proved; octets the message does not own stay. |
| `Packer.MsgPackPDelayReq` | src/msg.c:213-231 | The buffer takes the step of a PDelayReq in the runs for which unpacking is proved; octets the message does not own stay. |
| `Packer.MsgPackPDelayResp` | src/msg.c:242-261 | The buffer takes the step of a PDelayResp in the runs for which unpacking is proved; octets the message does not own stay. |
| `Packer.MsgPackPDelayRespFollowUp` | src/msg.c:274-295 | The buffer takes the step of a PDelayRespFollowUp in the runs for which unpacking is proved; octets the message does not own stay. |
| `Net.PacketQueue.Post` | src/net.c:16-49 | Appends a packet to those waiting, or drops it and disturbs none of them when the mailbox is full. |
| `Net.PacketQueue.Fetch` | src/net.c:200-205 | Takes the first packet waiting. |
| `Net.PacketQueue.EmptyQueue` | src/net.c:183-187 | Leaves none waiting. |
| `Net.CopyChain` | src/net.c:207-256 | Copies exactly the octets of the chain, or nothing when it is empty or too long, and nothing behind them, if no buffer is empty before the last octet. |
| `Net.ReadsInsideExactlyWhen` | src/net.c:237-250 | The copy loop reads past the end of a buffer if and only if an empty buffer comes before the last octet. |
| `Net.FirstInFirstOut` | src/net.c:16-49 | In the queue that a history of posts and fetches describes, what was accepted is what came out followed by what waits. |
| `Net.PlayOnQueue` | src/net.c:16-72 | Over every sequence of atomic posts and fetches, what ring and mailbox accepted is what came out of them, in order, followed by what waits, as that queue has it. |
| `PortInvariants.ToStateTimers` | src/protocol.c:112-268 | A change of state leaves exactly the timers of the new state armed. |
| `PortInvariants.HandleIsCalm` | src/protocol.c:489-618 | No reception but an announce changes the recommendation, the table, the parent or the pending decision; it leaves the state or makes it FAULTY and keeps the two-step pairing. |
| `PortSteps.StartDecides` | src/protocol.c:414-424 | Services start with an empty table, the own parent, nothing pending and only the announce timeout armed; or the port is faulty and nothing else changes. |
| `PortSteps.DecisionDecides` | src/bmc.c:368-424 | A decision settles on the extremal record and sets parent and distance by its outcome: own for MASTER, the record's for SLAVE with a new parent signalled, untouched for PASSIVE; the event is consumed and no other. |
| `PortSteps.SlaveMovesExactlyWhen` | src/protocol.c:356-398 | Told to be slave: UNCALIBRATED becomes SLAVE if and only if MASTER_CLOCK_SELECTED is pending, SLAVE becomes UNCALIBRATED if and only if SYNCHRONIZATION_FAULT or MASTER_CLOCK_CHANGED is, those events are then gone and no other, and every other state becomes UNCALIBRATED. |
| `PortSteps.DueIsRequested` | src/protocol.c:1239-1268 | A delay request is tried if and only if the timer of the mechanism is armed and expired, end to end in SLAVE only; it is counted if it goes out, and makes the port faulty otherwise. |
| `PortSteps.FollowUpMeasuredExactlyWhen` | src/protocol.c:811-845 | In UNCALIBRATED and SLAVE a FollowUp is measured if and only if one is waited for, it is from the parent and of the number that waits: a small offset signals MASTER_CLOCK_SELECTED in UNCALIBRATED, a large one SYNCHRONIZATION_FAULT in SLAVE, setting the clock forgets both exchanges, and a due delay request goes out; any other changes nothing. |
| `PortSteps.SyncMeasuredExactlyWhen` | src/protocol.c:708-746 | The same for a one-step Sync of the parent; a two-step one is stored with its number, and any other changes nothing. |
| `PortSteps.ReceptionDecides` | src/protocol.c:489-618 | For any reception in any state: exactly which messages are sent, which delay answers accepted, which Syncs stored and used, which events raised, what is then waited for, and that the port becomes faulty if and only if the packet is too short for its type, receiving failed or a send failed. Packets of another version or domain do nothing. |
| `PortSteps.AcceptedAgainExactlyWhen` | src/protocol.c:966-975 | A delay answer that was accepted is accepted a second time, unless it is the follow-up of a peer. |
| `PortSteps.AnnounceIsHeard` | src/protocol.c:639-683 | An announce of another clock asks for a decision; the parent's goes into the data sets and restarts the timeout, any other into the table. |
| `PortSteps.TimeoutDecides` | src/protocol.c:436-463 | From LISTENING, UNCALIBRATED, SLAVE and PASSIVE an announce timeout empties the table and leaves the clock its own parent and master, or listening where it cannot be master. |
| `PortSteps.ReceiverActs` | src/protocol.c:436-462 | In those states, as long as no announce is overdue, a call does exactly what the reception of the call decides. |
| `PortSteps.MasterActs` | src/protocol.c:464-479 | A master sends Sync, FollowUp and Announce if and only if their timers have expired and nothing before failed, counts those that went out, acts on what it receives if they did, and is faulty afterwards if and only if a send failed or the reception was broken. |
| `PortRuns.RunBmcDecides` | src/bmc.c:368-424 | A decision over a non-empty table recommends MASTER, PASSIVE or SLAVE with the data sets that belong to it. |
| `PortRuns.FollowKeeps` | src/protocol.c:338-412 | After following the recommendation a started port is in the state recommended to it and not faulty. |
| `PortRuns.TimeoutKeeps` | src/protocol.c:438-463 | An announce timeout empties the table and keeps the invariant, as master or listening. |
| `PortRuns.DoStateKeeps` | src/protocol.c:300-485 | One call of doState keeps the invariant, for every state that has it and every environment. |
| `PortRuns.Run` | src/protocol.c:300-485 | Every state reached from power-up has the invariant. |
| `PortRuns.TimersFollowState` | src/protocol.c:112-268 | After every call of every run the armed timers are those of the state and the delay mechanism. |
| `PortRuns.StateFollowsRecommendation` | src/protocol.c:338-412 | A started port that is not faulty is where it is told to be; PRE_MASTER and DISABLED never occur, INITIALIZING never again. |
| `PortRuns.StartsExactlyWhen` | src/protocol.c:274-294 | Services have started, once, if and only if a call made in INITIALIZING found the network up. |
| `PortResults.DecisionHasRecord` | src/protocol.c:311-317 | A pending decision always has a record to decide on, announced by another clock since the table was last emptied. |
| `PortResults.DataSetsFollowRecommendation` | src/bmc.c:156-235 | SLAVE only with a foreign record and the parent and distance of an announce heard from another clock since the table was last emptied; MASTER only as its own grandmaster at distance 0. |
| `PortResults.SlaveOnlyNeverMaster` | src/protocol.c:319-331 | A slave-only or class-255 clock is never MASTER or PASSIVE and never tries to send Sync, FollowUp, Announce or DelayResp. |
| `PortResults.ConfigurationDecidesMessages` | src/protocol.c:866-924 | In no run does a clock try to send a message of the other delay mechanism, or a FollowUp when it is one-step. |
| `PortResults.ClassDecidesRole` | src/bmc.c:381-401 | In no run is a clock of class below 128 UNCALIBRATED or SLAVE, and in none is any other PASSIVE. |
| `PortResults.LoneClockIsMasterExactlyWhen` | src/protocol.c:438-463 | In every run in which nothing arrives and nothing fails, the port is MASTER if and only if the announce timeout has expired since the first call and the clock can be master; otherwise it listens. |
| `PortResults.ParentsAnnounceKeptExactlyWhen` | src/protocol.c:654-664 | A newer announce of the parent sets parent and distance; the next decision for a slave keeps them if and only if the best record says the same. |
| `PortTable.RunKeepsTable` | src/bmc.c:102-146 | In every run of a port that is not peer-to-peer, or never master, the search starts at a record in use, and with the flag set on a match no sender is ever twice in the table. |
| `StaleRun.SenderTwice` | src/bmc.c:102-146 | For any peer-to-peer port that can be master and two masters it would follow: a run from power-up after which one sender has two records. |
| `StaleRun.DistinctExactlyWhen` | src/bmc.c:102-146 | With the flag set on a match, senders are distinct in all runs if and only if the port is not peer-to-peer or never master. |
| `PortResults.FaultyReinitialisesExactlyWhen` | src/protocol.c:426-431 | The branch that initialises a faulty port again is taken if and only if services never started. |
| `PortResults.FollowUpCompletesSync` | src/protocol.c:815-845 | Every FollowUp used completes a two-step Sync with its number and only changes of parent in between; each came from the parent of its moment. |
| `PortResults.SyncCompletedOnce` | src/protocol.c:834-844 | No two-step Sync is completed twice. |
| `PortResults.FollowUpsNeverExceedSyncs` | src/protocol.c:727-745 | There are never more FollowUps used than two-step Syncs stored. |
| `PortResults.FollowUpsComplete` | src/protocol.c:815-845 | In every run each FollowUp used completes a two-step Sync, both have one sender if and only if the parent was the same at both moments, and there are never more FollowUps used than such Syncs. |
| `PortResults.WaitingSurvivesExactlyWhen` | src/protocol.c:131-152 | A pending Sync survives a change of state if and only if both states are UNCALIBRATED or SLAVE. |
| `PortResults.NewParentCompletesOldSync` | src/protocol.c:131-133 | When a decision picks a new parent while a Sync waits, the FollowUps accepted are those of the new parent with the old number. |
| `MixedPair.FollowUpOfAnotherMaster` | src/protocol.c:815-845 | For any two masters the clock would follow, the second preferred: a run from power-up that uses a FollowUp of the one for a Sync of the other. |
| `CalibratedRun.SlaveExactlyWhen` | src/protocol.c:356-398 | For any master the clock would follow: a run from power-up through announce, Sync and FollowUp that ends in SLAVE if and only if the offset measured was small, and after a second Sync is still there if and only if that offset was not large. |
| `PortClock.PtpClock.constructor` | src/lwip-ptp.c:59-69 | Start-up gives the power-up state. |
| `PortClock.PtpClock.ToState` | src/protocol.c:112-268 | The whole record after a change of state is the one the timer invariant is stated of: timers, pending exchanges, state and at most the recommendation change, nothing else. |
| `PortClock.PtpClock.M1` | src/bmc.c:156-184 | Afterwards the parent data set describes exactly the data set of copyD0, at distance 0; nothing else changes. |
| `PortClock.PtpClock.S1` | src/bmc.c:200-235 | Afterwards the parent data set describes what was announced, one step further on; a change of master is signalled if and only if the parent differs, and no other event. |
| `PortClock.PtpClock.IssueSync` | src/protocol.c:1287-1316 | A FollowUp is attempted if and only if the Sync went out, was stamped and the clock is two-step, and the counter less one is then the number of the Sync; the counter moves if and only if the Sync went out; the port is faulty if a send failed. |
| `PortClock.PtpClock.IssueAnnounce` | src/protocol.c:1271-1284 | The counter moves, across its wrap, if and only if the send succeeds; otherwise the port is faulty. |
| `PortClock.PtpClock.IssueDelayReq` | src/protocol.c:1338-1363 | The counter moves by one, across its wrap, if and only if the send succeeds; otherwise the port is faulty, and only then are timers touched. |
| `PortClock.PtpClock.IssuePDelayReq` | src/protocol.c:1385-1410 | The counter moves by one, across its wrap, if and only if the send succeeds; otherwise the port is faulty, and only then are timers touched. |
| `PortClock.PtpClock.IssueDelayReqTimerExpired` | src/protocol.c:1239-1268 | A request goes out if and only if the timer of the configured mechanism is armed and has expired, end-to-end in SLAVE only, and the send succeeds; the timers stay as they are unless the port becomes faulty. |
| `PortClock.PtpClock.HandleAnnounce` | src/protocol.c:621-685 | Own and short announces add nothing; others request a decision and become the parent's new description or a record of the table, by state. |
| `PortClock.PtpClock.UpdateOffsetAndClock` | src/servo.c:152-205 | An offset raises at most one event, by state and size, and forgets pending exchanges only when the clock is set. |
| `PortClock.PtpClock.HandleSync` | src/protocol.c:688-781 | Only a Sync of the parent counts, in UNCALIBRATED and SLAVE; a two-step one waits with its number, a one-step one ends any waiting, signals its offset and lets a due request out. |
| `PortClock.PtpClock.HandleFollowUp` | src/protocol.c:784-863 | A FollowUp is measured if and only if a Sync waits, it is from the parent of the moment and has the number that waits: it ends the waiting, signals its offset and lets a due request out; any other changes nothing. |
| `PortClock.PtpClock.HandleDelayReq` | src/protocol.c:866-924 | A response is attempted if and only if the mechanism is end-to-end, the message is long enough and the port is MASTER, whoever sent it; the port is then faulty if and only if it was or the response failed. |
| `PortClock.PtpClock.HandleDelayResp` | src/protocol.c:927-991 | A response long enough is accepted if and only if the port is UNCALIBRATED or SLAVE, its number is one less than the counter, its requester is this port and its source the parent; nothing else changes. |
| `PortClock.PtpClock.HandlePDelayReq` | src/protocol.c:994-1062 | A long enough request of another clock is answered if and only if the port is peer-to-peer and PASSIVE, SLAVE or MASTER; the follow-up is attempted if and only if stamped and flagged, even after a failed response. |
| `PortClock.PtpClock.HandlePDelayResp` | src/protocol.c:1065-1159 | A response long enough counts if and only if the port is MASTER or SLAVE, it is from another port, its number is one less than the counter and its requester is this port; it is accepted or waits for its follow-up. |
| `PortClock.PtpClock.HandlePDelayRespFollowUp` | src/protocol.c:1162-1220 | A follow-up long enough is accepted if and only if the port is MASTER or SLAVE, waits for one and its number is one less than the counter, from whatever sender. |
| `PortClock.PtpClock.Handle` | src/protocol.c:489-618 | At most one packet acts, and everything `PortSteps.ReceptionDecides` says of a reception holds of the record. |
| `PortClock.PtpClock.Bmc` | src/bmc.c:408-424 | The index of the extremal record is remembered and the data sets follow the decision on that record, in place. |
| `PortClock.PtpClock.BmcStateDecision` | src/bmc.c:368-402 | Parent and distance change together with the outcome of Figure 26: own for MASTER, the record's for SLAVE, untouched for PASSIVE. |
| `PortClock.PtpClock.StateDecisionEvent` | src/protocol.c:304-336 | A pending event is consumed in the six active states only, and a clock that cannot be master is told to listen instead. |
| `PortClock.PtpClock.FollowRecommendation` | src/protocol.c:338-412 | The record moves as the agreement of state and recommendation is stated for; between UNCALIBRATED and SLAVE exactly on the events of `PortSteps.SlaveMovesExactlyWhen`, which are then gone. |
| `PortClock.PtpClock.DoInit` | src/protocol.c:274-294 | Services start and leave an empty table, no timers and the own parent, or fail and change nothing. |
| `PortClock.PtpClock.AnnounceTimeout` | src/protocol.c:442-462 | The table is emptied, and the record is master with the data set of copyD0 for its parent, or listens where it cannot be master. |
| `PortClock.PtpClock.Act` | src/protocol.c:414-485 | The record changes as the invariant of acting is stated for, through failed sends and fall-throughs. |
| `PortClock.PtpClock.DoState` | src/protocol.c:300-485 | One call, after which the fields are those of the run one call longer; so all statements about runs hold of the class. |
| `PortServo.PortFollowsServo` | src/servo.c:152-205 | The events the port sees are those the servo raises, and exchanges are forgotten if and only if the clock may be set and the raw offset is a second or more. |
| `PortCodec.MasterAnnouncesItself` | src/msg.c:56-77 | In every run an announce sent in MASTER unpacks to the data set of copyD0. |
| `PortCodec.DelayRespAcceptedExactlyWhen` | src/protocol.c:956-978 | The response packed from the latest request, from the parent, is accepted if and only if the counter is not -32768. |
| `PortCodec.ResponseAcceptedExactlyWhen` | src/protocol.c:956-978 | Of any station and any request, the packed response is accepted if and only if the port synchronizes with that station, sent that request itself and none since; responses to others never are. |
| `PortCodec.PeerRespAcceptedExactlyWhen` | src/protocol.c:1118-1205 | The two answers of a two-step neighbour to the latest peer request are accepted once if and only if the counter is not -32768. |
| `PortCodec.PeerAnswersAcceptedExactlyWhen` | src/protocol.c:1118-1205 | Of the packed answers to any peer request of any station the response counts if and only if the port sent the request itself, its follow-up for whomever it is, as long as one of that number is waited for. |

## Left out

- lwIP itself, UDP and IGMP set-up, threads, semaphores and mailbox creation (src/lwip-ptp.c, src/net.c:75-169): foreign code; receiving, sending and timers are what the environment of a call does.
- The interleaving of `netRecvCallback` with `netRecv` below the level of whole calls: slots are overwritten and restored without a lock (src/net.c:27-37), so the order of packets is stated for atomic calls only.
- Freeing of packets: `netEmptyEventQ` forgets packets without freeing them, and no conservation is stated.
- `netSend` and its outbox (src/net.c:259-335): the copy into a fresh packet would only add easy members; a send succeeds or fails.
- Net.CopyChain: requires that no buffer is empty before the last octet; `Net.ReadsInsideExactlyWhen` shows that the loop of the source reads outside its buffers otherwise, and what it reads there is not modelled.
- Net.PacketQueue.Post: the mailbox has as many places as the ring; the values it carries are slot numbers instead of pointers, and a packet is its chain, without the sender's address.
- Management and Signaling handlers (src/protocol.c:1223-1236), which are empty, and statistics (src/servo.c:312-325), which are compiled off.
- Debug output, option defaults, random timer intervals and the hardware clock: parameters, or left to the environment.
- `logMinDelayReqInterval` and the time properties data set: nothing modelled depends on them.
- `initData` (src/bmc.c:25-88) is the constant configuration of the model; the widening of a MAC address to a clock identity is left out.
- Port.OffsetClass: the port sees an offset as one of four sizes; `PortServo.PortFollowsServo` ties them to the servo.
- The measured offset and delay that `m1` clears (src/bmc.c:162-163): the port holds no measurement and the servo no data set.
- Servo.ServoClock.MeasureOffset: what it stores where a time on the way is out of reach is stated through the wrapped differences of `Arith`.
- ServoExchange.SymmetricExchange: supposes that an offset has been measured before, without which the source measures no delay, and times within 2^31 - 1 seconds of each other.
- Servo.ServoClock.UpdatePeerDelay: the four timestamps of the clock record are parameters.
- Servo.ServoClock.constructor: filter orders up to 30 and sync intervals from 2^-31 to 2^31 seconds; beyond them the shifts of the source have no defined value.
- FilterWords.ConstantSettlesInWords: one direction only; where falls can overflow some states still settle and some do not, and what is stated for all of them is that they settle if and only if they overflow finitely often (`FilterWords.SettlesExactlyWhen`), with a cycle (`FilterWords.NegativeConstantCycles`).
- Port.AcceptDelay: counts the responses handed to the servo, which measures the first of them only once an offset exists (`Servo.ServoClock.UpdateDelay`).
- Filter.Sample: samples exclude -2^31, whose magnitude is not a word; the program feeds less than a second.
- BmcOrder.Comparison: the sign of `memcmp` is the sign of the unsigned lexicographic comparison; the source stores it in 16 bits, which is the same for comparisons that return the difference of two octets.
- Election.Informed: tables hold the announces of all others, in any order and number; how a ring of limited capacity comes to hold them is not part of it.
- MixedPair.FollowUpOfAnotherMaster: needs a foreign table of at least two slots; the program has five.
- StaleRun.DistinctExactlyWhen: supposes two masters that the clock would follow, and a foreign table of at least two slots.
- The oscillator and the stability of the closed loop are not in the program.
