# A verified model of onramp's hybrid datagram protocol and session state

onramp gives Go programs I2P ("Garlic") and Tor ("Onion") connections. Its hybrid2 sub-package sends most
datagrams in the cheap, unauthenticated datagram3 form and refreshes the sender's identity with an authenticated
datagram2 now and then. The receiver keeps a table from sender hashes to destinations that expires; what a
datagram3 says about its source is only as good as that table. This project models the protocol and the shared
state it depends on, and proves what the design relies on, over whole runs.

Time is an integer number of nanoseconds on one monotone clock. 64-bit counters wrap around and 64-bit durations
saturate, as they do in the code. The outcome of every call into SAM, Tor or the random source is a parameter, and
maps are scanned in arbitrary order.

## Modules

- `Base`, `AckCodec`, `Hybrid1Frame`: machine integers, the two wire formats and their round trips.
- `SenderSpec`, `SenderStates`, `Session`: the sender state, first as functions on values, then as the mutable classes
  that compute them.
- `UnackedFifo`, `PathMetrics`, `PathHistory`, `LastAck`: the window of unacknowledged datagram2s as a queue; RTT and
  quality, for one event and over runs; the time reported as that of the last ACK.
- `SendMachine`: `SendDatagram` and `ForceDatagram2` as a small-step machine, one mutex section per step, any number
  of goroutines, ACKs and sweeps anywhere. `SendSafety` holds for every interleaving, `SendSolo` for one sending
  goroutine, `SendCalls` and `SendWrap` show where the line between the two runs.
- `ReceiverTable`, `ReceiverStates`: the expiring table against a plain log, and the class that keeps it.
- `Freshness`, `FreshnessLimit`: sender machine, network and table on one clock, and the exact bound up to which
  every datagram3 that arrives in time resolves.
- `AckNetwork`: any number of parties, each with a send machine for each peer, exchanging datagram2s and ACKs.
- `GetOrCreate`, `OnionRefs`, `ManagedOnions`, `Lifecycle`: lock protocols and shutdown under any interleaving.
  `OnionRuntime` is the sequential side of the reference count and of the map of managed Onions.
- `Delivery`: sender, network and receiver put together.
- `GarlicSpec`, `Garlics`: the lazily created sessions and the cache of stream subsessions.

## Main results

- With attempts at most `gap` apart, `lag` between a choice and its mark, `delay` from a datagram3's choice to its
  arrival and at most `k` refreshes lost before it, the table answers for every datagram3 if and only if
  `(R − 1 ns) + k·((R − 1 ns) + gap + lag) + delay` is within the expiry time, where `R` is the refresh interval
  (`FreshnessLimit.FreshExactlyWhenBounded`; sufficiency needs no condition on `gap` and `lag`).
- All runs with at most c calls to one destination at once keep to 499 datagram3s in a row if and only if c is at most
  1; with one sending goroutine the unacknowledged window is a FIFO queue in all runs of at most n marks if and only if
  n < 2^64.
- On a lossy, reordering, duplicating network of send machines ACKs are sound if and only if no payload that may go
  out raw looks like a response with a number other than 0: those of ForceDatagram2, and with an AckRequestInterval
  other than 1 those of SendDatagram too.
- What SendDatagram is given is what the application at the other end receives, in order; the number on the wire is the
  one that is outstanding, and its ACK clears it (`Delivery.SentIsReceived`, `Session.Exchange`).
- The quality score is, in every interleaving, a fixed function of the order of answers and timeouts.
- Get-or-create is linearizable, in real-time order, and with the lock free a call returns within eight steps.
- Tor is only closed when every Onion has given up its reference, as promised (onion.go:228). The converse, that with
  all of them closed it is closed, holds after exactly the runs in which no Onion was counted twice and Tor was not left
  up uncounted (`OnionRefs.ClosedAtRestExactlyWhen`).
- Shutdown happens once, the receive loops exit within three steps, the merged receive stream keeps order, and a
  waiting reader can return exactly while something is left that could wake it.

## Where code and documentation differ

- `PathStats.LastAcked` is described as the time of the last ACK (hybrid2/types.go:120-121). The code reports the send
  time of the oldest datagram2 still outstanding, or the last mark (hybrid2/session.go:247-258). From the first mark
  on that is not the time of the last ACK, unless the two happen to coincide (`LastAck.ReportedIsNoAckTime`,
  `LastAck.AckLeavesReport`).
- Every 500th message is said to be authenticated (hybrid2/config.go:5-7). That holds for one sending goroutine per
  destination only (`SendCalls.BoundedExactlyOneAtATime`). A send that timed out in SendDatagramTimeout
  goes on in its own goroutine (hybrid2/sender.go:384-394), so a caller that retries is a second one.
- After Close all operations are said to return ErrSessionClosed (hybrid2/session.go:177). A ReceiveDatagram that
  calls later does (`Lifecycle.LateReaderIsRefused`); one that is already waiting returns at most a datagram or an
  error that is still under way, and otherwise never (`Lifecycle.ReaderReturnsExactlyWhen`,
  `Lifecycle.WaitingReaderIsStranded`).
- CloseAllOnion is said to close all managed Onions (onion.go:366-367). One that held a reference when a later
  ListenOnion took over its name is no longer in the map and keeps its reference
  (`OnionRuntime.TorRuntime.CloseAllOnion`, `OnionRuntime.TorRuntime.DisplacedOnionHoldsTor`), and so do others that
  lose their name or get their reference at the wrong moment (`ManagedOnions.AfterCloseAll`,
  `ManagedOnions.ListenOutlivesCloseAll`, `ManagedOnions.TwoDialsDisplace`).

## Model

| member | source | states |
|---|---|---|
| `AckCodec.DecodeInvertsEncoders` | hybrid2/sender.go:221-260 | decoding is a left inverse of both encoders, for every number and payload |
| `AckCodec.EncodersInvertDecode` | hybrid2/sender.go:221-260 | whatever decodes as an ACK message is, byte for byte, what the encoder makes of its parts (a response may carry a tail), and everything not shaped like one is plain data |
| `AckCodec.FramedTransparency` | hybrid2/receiver.go:262-278 | a payload sent with an ACK request reaches the application unchanged |
| `AckCodec.UnframedTransparency` | hybrid2/receiver.go:262-278 | a payload sent raw reaches the application unchanged if and only if it does not look like an ACK message |
| `AckCodec.WireFormat` | hybrid2/sender.go:221-260 | an ACK message is 0xAC or 0xAD, eight bytes of number with the most significant first, and the payload |
| `Base.GetPut` | hybrid2/sender.go:224 | reading a big-endian number back gives the number, for every width that holds it |
| `Base.PutGet` | hybrid2/sender.go:249 | writing back what was read gives the bytes |
| `Base.MostSignificantFirst` | hybrid2/sender.go:224 | the first byte carries the highest weight |
| `SenderStates.SenderState.ShouldUseDatagram2` | hybrid2/sender.go:54-75 | datagram2 is chosen on a counter that is a multiple of 500, before any mark, and four minutes after the last mark, and at no other time |
| `SenderStates.SenderState.IncrementCounter` | hybrid2/sender.go:79-86 | the counter moves by one modulo 2^64 and nothing but the counter and the send time changes |
| `SenderStates.SenderState.MarkDatagram2Sent` | hybrid2/sender.go:91-98 | the mark time and the next number modulo 2^64 are recorded and nothing else changes |
| `SenderStates.SenderState.ShouldRequestAck` | hybrid2/sender.go:105-125 | the three conditions under which an ACK is requested |
| `SenderStates.SenderState.TrackUnackedDatagram` | hybrid2/sender.go:128-133 | the number is outstanding since now |
| `SenderStates.SenderState.ProcessAck` | hybrid2/sender.go:137-180 | an outstanding number updates average, quality and highest number and clears itself and everything older, in whatever order the map is scanned; any other number changes nothing |
| `SenderStates.SenderState.RemoveThrough` | hybrid2/sender.go:174-179 | scanning and deleting in arbitrary order leaves exactly the entries with greater numbers |
| `SenderStates.SenderState.CleanupStaleUnacked` | hybrid2/sender.go:184-207 | exactly the entries older than the timeout go, their number is returned, and the quality drops once for each |
| `SenderStates.SenderState.RemoveStale` | hybrid2/sender.go:191-196 | scanning and deleting in arbitrary order leaves exactly the entries that have not timed out and counts the others |
| `SenderStates.SenderState.ResetCounter` | hybrid2/sender.go:211-217 | the counter takes the given value and nothing but the counter and the send time changes |
| `SenderStates.SenderState.OldestUnacked` | hybrid2/session.go:247-258 | the time reported as last ACK is the least send time outstanding, and the last mark when none is |
| `SenderSpec.EveryDatagram2RequestsAck` | hybrid2/sender.go:114-117 | with AckRequestInterval 1 every datagram2 of SendDatagram asks for an ACK |
| `SenderSpec.AsksExactlyWhen` | hybrid2/sender.go:105-125 | under any interval an ACK is asked for exactly while the RTT is unmeasured, on multiples of the interval and with two datagram2s outstanding |
| `UnackedFifo.AckPopsPrefix` | hybrid2/sender.go:137-180 | an ACK of the i-th oldest outstanding datagram2 removes it and all older ones and no other; an ACK of any other number changes nothing |
| `UnackedFifo.SweepPopsPrefix` | hybrid2/sender.go:184-207 | a sweep that reports n timeouts has removed the n oldest entries |
| `UnackedFifo.TrackSimulates` | hybrid2/sender.go:128-133 | tracking appends at the back of the queue that the map represents, and the account of entries balances |
| `UnackedFifo.AckSimulates` | hybrid2/sender.go:137-180 | an ACK is a pop from the front of the queue, counted once as explicit and otherwise as implied |
| `UnackedFifo.SweepSimulates` | hybrid2/sender.go:184-207 | a sweep is a pop from the front of the queue, every entry counted as timed out |
| `UnackedFifo.OldestIsFront` | hybrid2/session.go:247-258 | the time reported as last ACK is that of the front of the queue, and the last mark when the queue is empty |
| `LastAck.ReportedIsNoAckTime` | hybrid2/session.go:247-258 | in every interleaving the reported last ACK time is that of the marking or tracking of some datagram2; unless the last ACK fell on the clock reading of one, the report is right if and only if no datagram2 has been marked yet |
| `LastAck.AckLeavesReport` | hybrid2/session.go:247-258 | one datagram2 sent at time 0 and acknowledged at any later time: what is reported is 0 |
| `UnackedFifo.AckAllResult` | hybrid2/sender.go:137-180 | after any list of ACKs the window holds what is newer than every acknowledged outstanding number, and the highest acknowledged number is the greatest of them or the old one |
| `UnackedFifo.AckOrderIrrelevant` | hybrid2/sender.go:137-180 | duplicates, unknown numbers and order of ACKs do not affect the window or LastAckedSeqNum, which never decreases |
| `PathMetrics.AverageStaysInRange` | hybrid2/sender.go:148-159 | for every sequence of samples the RTT average lies between the least and the greatest, and 7·RTT + sample does not wrap |
| `PathMetrics.DistanceShrinks` | hybrid2/sender.go:154-159 | one sample shrinks the distance to it by an eighth, rounded towards the sample from above and away from it from below; the average stays put exactly within 7 ms below the sample |
| `PathMetrics.ConstantSampleConverges` | hybrid2/sender.go:154-159 | under a constant sample the average reaches it from above and ends at most 7 ms below it from below |
| `PathMetrics.UnmeasuredIsExact` | hybrid2/sender.go:155-156 | an unmeasured average is exact after the first sample and stays so under that sample |
| `PathMetrics.MatchedAck` | hybrid2/sender.go:161-167 | a matched ACK takes a quality of 0 to 1 and any other a tenth of the way to 1 |
| `PathMetrics.MatchedRtt` | hybrid2/sender.go:148-159 | a matched ACK gives an unmeasured RTT the whole milliseconds since the send and moves a measured one an eighth of the way to them |
| `PathMetrics.SweepIs` | hybrid2/sender.go:184-207 | a sweep removes a datagram2 if and only if it is more than ten seconds old, multiplies the quality by 0.9 for each, and changes nothing else |
| `PathMetrics.TimeoutsScaleQuality` | hybrid2/sender.go:198-204 | n timeouts multiply the quality by 0.9^n |
| `PathMetrics.AcksApproachOne` | hybrid2/sender.go:161-167 | n matched ACKs from q > 0 give 1 − 0.9^n·(1 − q), which is at least q and at most 1 |
| `PathHistory.AnswersApproachOne` | hybrid2/sender.go:137-180 | of any list of ACKs the n that match bring the quality n times a tenth of the way to 1, and from 0 the first brings it to 1 |
| `PathHistory.QualityIsScore` | hybrid2/sender.go:161-207 | in every interleaving the quality is the score of what became of the datagram2s, in the order in which the sender learned it: 0 before the first answer, 1 with it, and from then on a tenth of the way to 1 for an answer and to 0 for a timeout |
| `SendSafety.RunIsSafe` | hybrid2/sender.go:271-335 | every step of every interleaving keeps the invariant behind the next five rows |
| `SendSafety.EveryDatagram3IsCovered` | hybrid2/sender.go:54-98 | in any interleaving of senders no datagram3 is chosen before a datagram2 send has succeeded, and each is chosen less than four minutes after a mark |
| `SendSafety.Datagram3Chosen` | hybrid2/sender.go:54-75 | in any interleaving a call that chooses datagram3 finds a successful datagram2 behind it and the last mark less than four minutes old |
| `SendSafety.SequenceNumbersDistinct` | hybrid2/sender.go:91-98 | in any interleaving two marks fewer than 2^64 apart have different numbers |
| `SendSafety.ZeroTimeNeverReached` | hybrid2/sender.go:63-67 | in any interleaving the check for a zero LastDatagram2Time is only reached after a mark |
| `SendSafety.PathStatsInRange` | hybrid2/sender.go:148-167 | in any interleaving the quality lies in [0, 1] and is 0 exactly while no ACK has matched, and the RTT lies within the measured round trips |
| `SendSolo.AtMost499InARow` | hybrid2/sender.go:54-86 | with one sending goroutine at most 499 successful datagram3s lie between successful datagram2s, through failures, forced sends, time triggers and wrap-around |
| `SendSolo.WindowIsFifo` | hybrid2/sender.go:128-207 | with one sending goroutine the unacked map is a FIFO queue, its keys lie above the last acknowledged and up to the last assigned number, and tracked = acked + implied + timed out + outstanding |
| `SendSolo.ExactDatagram2Count` | hybrid2/sender.go:54-86 | without failures, forced sends and time triggers N sends use ceil(N / 500) datagram2s, counted afresh at every counter wrap |
| `SendWrap.WrapBreaksFifo` | hybrid2/sender.go:174-179 | the bound on marks in WindowIsFifo is sharp: at 2^64 marks an ACK of the front also drops a newer entry |
| `SendWrap.FifoExactlyBelowWrap` | hybrid2/sender.go:174-179 | in all runs of one sending goroutine with at most n marks the window is a FIFO, if and only if n < 2^64 |
| `SendCalls.UninterruptedSend` | hybrid2/sender.go:271-307 | the sections of SendDatagram, run without interruption from any state, make up its sequential description |
| `SendCalls.UninterruptedForce` | hybrid2/sender.go:316-335 | the same for ForceDatagram2 |
| `SendCalls.ForcedRestartsCycle` | hybrid2/sender.go:309-335 | after a successful forced datagram2 the next 499 sends are datagram3s and the one after them a datagram2, while the clock asks for nothing |
| `SendCalls.TwoGoroutinesSkip` | hybrid2/sender.go:271-307 | two goroutines whose sends to one destination all succeed can send any number of datagram3s in a row |
| `SendCalls.BoundedExactlyOneAtATime` | hybrid2/sender.go:271-307 | all runs with at most c calls to one destination under way at once keep to 499 datagram3s in a row, if and only if c is at most 1 |
| `Session.SendIsTransparent` | hybrid2/sender.go:278-303 | every payload of SendDatagram that arrives reaches the application unchanged, by either path |
| `Session.TransparentExactlyWhen` | hybrid2/sender.go:278-303 | under any AckRequestInterval a payload of SendDatagram arrives unchanged if and only if it went as datagram3, asked for an ACK, or does not look like an ACK message |
| `Session.ForceIsTransparentUnlessMarked` | hybrid2/sender.go:316-335 | a payload of ForceDatagram2 arrives unchanged if and only if it is shorter than 9 bytes or does not start with 0xAC or 0xAD |
| `Session.SendIs` | hybrid2/sender.go:271-307 | SendDatagram in terms of the state before: on every 500th count and when four minutes are over the wire carries a request that decodes to the next number and the payload, that number is outstanding and the mark moves; otherwise the bare payload as datagram3; the counter moves on success only |
| `Session.ForceIs` | hybrid2/sender.go:316-335 | ForceDatagram2 likewise: a new number and mark whatever happens, nothing tracked, the counter at 1 after a success |
| `Session.AckReturns` | hybrid2/sender.go:278-303 | the response to the request that was sent carries the number that is outstanding, clears it, and brings LastAckedSeqNum to it |
| `Session.Exchange` | hybrid2/receiver.go:262-278 | two sessions: a payload sent by one is delivered by the other, and its reply leaves the sender with the number acknowledged |
| `Delivery.NetworkPostsWire` | hybrid2/sender.go:278-303 | in an uninterrupted SendDatagram the network's machine posts exactly the bytes the session sends |
| `Delivery.NetworkPostsNothing` | hybrid2/sender.go:271-307 | and no datagram2 when datagram3 is chosen |
| `Delivery.NetworkPostsForced` | hybrid2/sender.go:316-335 | and the bare payload in ForceDatagram2 |
| `Delivery.SentIsReceived` | hybrid2/receiver.go:206-333 | when the reads of a receive loop are the wire messages of some SendDatagram calls, the application receives a prefix of their payloads, in order and with their sources |
| `Session.HybridSession.GetSenderState` | hybrid2/sender.go:36-45 | one state per destination, created in the initial state on first use, no state changed |
| `Session.HybridSession.SendDatagram` | hybrid2/sender.go:271-307 | a closed session refuses and changes nothing; otherwise the wire message and the new state of the destination, a datagram2 being a request under the number just assigned and outstanding; a failed one is still marked and the counter moves on success only; no other destination changes |
| `Session.HybridSession.ForceDatagram2` | hybrid2/sender.go:316-335 | a closed session refuses; otherwise the raw payload goes out as datagram2 and success resets the counter to 1 |
| `Session.HybridSession.ProcessDatagram2Ack` | hybrid2/receiver.go:262-278 | what is forwarded, which ACK response goes back, and that only an ACK response touches a state, that of its source |
| `Session.HybridSession.CleanupStaleUnacked` | hybrid2/session.go:149-168 | every state is swept once, each at its own time, in any order |
| `Session.HybridSession.GetPathStats` | hybrid2/session.go:233-270 | the statistics of a known destination, none of an unknown one |
| `ReceiverTable.TableAgainstLog` | hybrid2/receiver.go:95-142 | the table's entry is the latest registration, and an absent entry means none or an expired one |
| `ReceiverTable.LookupSucceedsAsLogged` | hybrid2/receiver.go:133-142 | a lookup succeeds exactly when the latest registration is at most HashExpiryDuration old, whenever sweeps happened |
| `ReceiverTable.LookupMatchesLog` | hybrid2/receiver.go:95-142 | when the hash determines the destination table and log give the same answer |
| `ReceiverTable.SweepsUnobservable` | hybrid2/receiver.go:95-104 | sweeping cannot be observed by lookups |
| `ReceiverTable.RegistrationWins` | hybrid2/receiver.go:113-129 | a registration decides the answer if and only if no entry for another destination is present |
| `ReceiverTable.RegisteredForTenMinutes` | hybrid2/receiver.go:113-142 | a registration answers for exactly ten minutes and for no other hash |
| `ReceiverTable.CollisionShowsSweep` | hybrid2/receiver.go:117-120 | with two destinations under one hash sweeping is observable |
| `ReceiverStates.MappingEntry.IsExpired` | hybrid2/receiver.go:44-48 | expired is older than HashExpiryDuration, strictly |
| `ReceiverStates.ReceiverState.RegisterSender` | hybrid2/receiver.go:113-129 | refreshes in place or inserts, and touches no other hash |
| `ReceiverStates.ReceiverState.LookupSender` | hybrid2/receiver.go:133-142 | the destination of an entry that has not expired, else the empty address |
| `ReceiverStates.ReceiverState.LookupOrResolve` | hybrid2/receiver.go:337-346 | table first, then SAM, whose answer is registered, else the empty address |
| `ReceiverStates.ReceiverState.RemoveExpiredMappings` | hybrid2/receiver.go:95-104 | exactly the expired entries go, in whatever order the map is scanned |
| `ReceiverStates.ReceiverState.MappingCount` | hybrid2/receiver.go:145-149 | the number of entries held, expired or not |
| `Freshness.NextMarkSoon` | hybrid2/sender.go:54-98 | consecutive marks are never further apart than the refresh interval plus the gap between attempts and the lag between choice and mark |
| `Freshness.HistoryOk` | hybrid2/receiver.go:113-142 | what every run of sender, network and receiver keeps |
| `Freshness.TableIsLogged` | hybrid2/receiver.go:236-346 | the table of every run is that of its registrations and sweeps: every arriving datagram2, a datagram3 only when the table had no answer and SAM did |
| `Freshness.MayArriveOnceHandedOver` | hybrid2/sender.go:289-303 | what has been handed to the network may arrive before its send returns, and a datagram2 not before its mark |
| `Freshness.DeliveredHasArrived` | hybrid2/receiver.go:236-240 | the marks counted as delivered are those whose datagram2 arrived |
| `Freshness.ArrivalLastsTenMinutes` | hybrid2/config.go:20-26 | for ten minutes after the arrival of any datagram2 every lookup finds the sender, whatever else happens |
| `Freshness.FreshWhenBounded` | hybrid2/config.go:20-26 | under any interleaving of senders, loss of up to k refreshes, reordering, duplication, sweeps and other senders, a datagram3 that arrives in time is resolved by the table to its true sender |
| `Freshness.ConfiguredMargins` | hybrid2/config.go:15-26 | the configured intervals tolerate six minutes of delay without loss, and two minutes of gap, lag and delay with one lost refresh |
| `FreshnessLimit.LateArrival` | hybrid2/receiver.go:337-346 | past the bound a timely run ends with a datagram3 whose sender is not in the table |
| `FreshnessLimit.FreshExactlyWhenBounded` | hybrid2/config.go:20-26 | the table always answers for datagram3s that arrive in time if and only if the worst age of an entry is within HashExpiryDuration |
| `AckNetwork.RunSound` | hybrid2/receiver.go:262-278 | every event of every run in which all payloads that may go out raw are harmless keeps the invariant behind the next row |
| `AckNetwork.SoundExactlyWhenHarmless` | hybrid2/sender.go:271-335 | among any number of parties, each running the send machine for each peer, with loss, reordering and duplication, under any AckRequestInterval: LastAckedSeqNum is in every run 0 or a number the owner asked about and the peer received, if and only if no payload that may be forced looks like a response with a number other than 0, and none that may be given to SendDatagram either unless the interval is 1 |
| `AckNetwork.RoundTripAcknowledges` | hybrid2/receiver.go:262-278 | a request on the wire whose number is outstanding is acknowledged once it and the response to it have arrived, whatever else has happened |
| `AckNetwork.ForcedResponseForgesAck` | hybrid2/sender.go:327 | for each such forced payload a run of the code that acknowledges a number the peer never received |
| `AckNetwork.UnframedResponseForgesAck` | hybrid2/sender.go:278-303 | the same for a payload of SendDatagram, under every interval but 1 and with nothing forced |
| `GetOrCreate.NoWriterOverlaps` | internal/hybridcommon/maps.go:7-15 | a thread writing or about to write is alone with the map |
| `GetOrCreate.Linearizable` | internal/hybridcommon/maps.go:6-25 | the operations, in the order in which they take effect within their calls, are a run of the sequential object that explains the map and every result |
| `GetOrCreate.RealTimeOrder` | internal/hybridcommon/maps.go:6-25 | a call that has returned took effect before every call that begins later |
| `GetOrCreate.BoundCallReturns` | internal/hybridcommon/maps.go:7-15 | with the lock free a call for a bound key returns its value after three steps, without the write lock, and changes nothing |
| `GetOrCreate.AbsentCallReturns` | internal/hybridcommon/maps.go:17-24 | with the lock free a call for an absent key returns the value made for it after eight steps, with the key bound to it and the constructor run once more |
| `GetOrCreate.SameValueForAll` | internal/hybridcommon/maps.go:6-25 | every returned call has the value the key is bound to |
| `GetOrCreate.ConstructedAtMostOnce` | internal/hybridcommon/maps.go:17-24 | the constructor runs at most once for a key and never for one that was bound |
| `GetOrCreate.BindingsStay` | internal/hybridcommon/maps.go:17-24 | a binding is never replaced |
| `OnionRefs.RefsCountHolders` | onion.go:75-104 | for any number of goroutines on any Onions the count is holders, plus closers still to decrement, plus the acquisitions that counted an Onion again; so it is never negative, and Tor runs while anyone holds it |
| `OnionRefs.ClosedOnlyWhenUnheld` | onion.go:229-272 | in any interleaving Tor is closed exactly by the last closer when no Onion holds a reference and nothing was counted again, and a closer never finds it gone |
| `OnionRefs.RunningExactlyWhen` | onion.go:75-104 | after any run Tor is up if and only if an Onion holds a reference, a closer has yet to decrement, an Onion was counted again, or Tor was left up by a closing that failed or a start on a flag cleared since |
| `OnionRefs.ClosedAtRestExactlyWhen` | onion.go:228-272 | once every call has returned and every Onion is closed, Tor is closed if and only if no Onion was counted again and Tor was not left up |
| `OnionRefs.ExclusiveIsNeverLeftUp` | onion.go:228-272 | with one goroutine at a time on each Onion and closing that succeeds, Tor is up exactly while an Onion holds a reference or a closer has yet to decrement |
| `OnionRefs.CanStopExactlyWithoutSurplus` | onion.go:75-104 | after any run some further calls can stop Tor if and only if no Onion was counted again in it; otherwise Tor runs for good |
| `OnionRefs.ExclusiveIsExact` | onion.go:75-104 | with one goroutine at a time on each Onion nothing is counted again |
| `OnionRefs.UninterruptedCalls` | onion.go:75-104 | run without interruption the sections do what the sequential methods promise |
| `OnionRefs.SharedOnionCountsTwice` | onion.go:77-82 | two goroutines in getTor on one Onion count it twice, and Tor is left running with every Onion closed |
| `OnionRefs.FailedCloseLeavesUp` | onion.go:254-262 | one goroutine whose Close fails to stop Tor: no Onion holds it and it runs, uncounted |
| `OnionRefs.StaleFlagLeavesUp` | onion.go:77-97 | a goroutine that read its flag before another one's Close starts Tor again and counts nothing |
| `OnionRuntime.TorRuntime.NewOnion` | onion.go:298-302 | a new Onion holds no reference |
| `OnionRuntime.TorRuntime.GetTor` | onion.go:75-104 | on success the Onion holds a reference, counted once, and Tor runs; on failure nothing changes |
| `OnionRuntime.TorRuntime.Close` | onion.go:229-272 | the Onion holds no reference afterwards, and Tor stops exactly when it was the last holder and closing succeeds |
| `OnionRuntime.TorRuntime.DrainOnions` | onion.go:372-382 | every managed Onion loses its reference and no other does, in any order |
| `OnionRuntime.TorRuntime.CloseAllOnion` | onion.go:368-385 | run by one goroutine: the count drops by exactly the Onions in the map that hold a reference, no Onion ever managed holds one afterwards if and only if none was displaced before, and Tor stops exactly when the last reference was among them and closing succeeds |
| `OnionRuntime.TorRuntime.CloseOnion` | onion.go:389-407 | one managed Onion loses its reference and its name, and no other; Tor stops exactly when that was the last reference and closing succeeds |
| `OnionRuntime.TorRuntime.ListenOnion` | onion.go:412-436 | run by one goroutine: a new Onion takes over the name; the one that had it is displaced exactly when it holds a reference |
| `OnionRuntime.TorRuntime.DialOnion` | onion.go:441-456 | run by one goroutine: the managed Onion is reused, or a new one managed from then on, and none is displaced |
| `OnionRuntime.TorRuntime.DisplacedOnionHoldsTor` | onion.go:412-436 | two ListenOnion calls under one name, then CloseAllOnion, from any state: Tor still runs and the first Onion holds it |
| `ManagedOnions.NamelessAreOrphans` | onion.go:368-456 | in any interleaving of ListenOnion, DialOnion, CloseOnion and CloseAllOnion the Onions that hold a reference under no name are exactly those orphaned in the run: they lost their name while holding one, or got one after losing it |
| `ManagedOnions.RefinesRefs` | onion.go:75-104 | every such run is a run of the reference count |
| `ManagedOnions.OnlyTheCloserChangesTheMap` | onion.go:368-407 | from its first section to its return nobody but a CloseAllOnion or CloseOnion changes the map |
| `ManagedOnions.UninterruptedListen` | onion.go:412-436 | run without interruption ListenOnion puts a new Onion under the name and gets it a reference |
| `ManagedOnions.UninterruptedDial` | onion.go:441-456 | run without interruption DialOnion uses the Onion under the address or puts a new one there |
| `ManagedOnions.UninterruptedCloseOne` | onion.go:389-407 | run without interruption CloseOnion takes the Onion's reference and its name |
| `ManagedOnions.AfterCloseAll` | onion.go:368-385 | when CloseAllOnion returns, the Onions with a reference are exactly the orphans so far, and Tor runs while there are any |
| `ManagedOnions.HoldersAfterCloseAll` | onion.go:368-385 | once the calls under way at that point have got their references, and nothing else has happened, the holders are exactly the orphans and the Onions of those calls |
| `ManagedOnions.CarefulLeavesNone` | onion.go:412-456 | when calls do not overlap and ListenOnion is given no name whose Onion holds a reference, nothing is ever orphaned |
| `ManagedOnions.ListenOutlivesCloseAll` | onion.go:412-436 | a ListenOnion between registering and starting outlives a whole CloseAllOnion |
| `ManagedOnions.TwoDialsDisplace` | onion.go:441-456 | two DialOnion calls to one address orphan the Onion of the first |
| `Lifecycle.ExactlyOneShutdown` | hybrid2/session.go:178-200 | of any number of Close callers exactly one shuts down, each of the four channels is closed at most once, and cleanupDone after the other three |
| `Lifecycle.CloseCompletes` | hybrid2/session.go:178-200 | a Close that finds the session open has closed all four channels after its own five steps |
| `Lifecycle.CallersFindItClosed` | hybrid2/session.go:178-185 | once any Close has run its first section the session is closed |
| `Lifecycle.StaysClosed` | hybrid2/sender.go:24-31 | no later check of ensureSessionOpen passes |
| `Lifecycle.OrderedMerge` | hybrid2/receiver.go:206-333 | each stream the application receives is a prefix of what its loop took, and the buffer never exceeds 100 |
| `Lifecycle.ReceivedAsSent` | hybrid2/receiver.go:236-333 | whatever the reads brought: received, then buffered, then held or lost on exit are the payloads as they were sent, a framed one without its frame, a raw one and a datagram3 as they are, responses left out, in order and with their sources |
| `Lifecycle.SomethingBrought` | hybrid2/sender.go:221-260 | every read is one of these |
| `Lifecycle.EveryReadCounts` | hybrid2/receiver.go:206-333 | no read of a run is left out of that account |
| `Lifecycle.ReadIs` | hybrid2/receiver.go:223-333 | what a loop does with each kind of read, and exactly when it reports an error |
| `Lifecycle.OfferedWhileThereIsRoom` | hybrid2/receiver.go:252-257 | an item goes into the channel exactly while fewer than 100 are there |
| `Lifecycle.ReadersGetReceived` | hybrid2/receiver.go:352-366 | the i-th item received is what the i-th reader to take one returned, and no reader returned another |
| `Lifecycle.AtMostOneLateItem` | hybrid2/receiver.go:252-257 | in every run each loop enqueues at most one item after the stop signal |
| `Lifecycle.ProducersWindDown` | hybrid2/receiver.go:209-233 | in every run after the stop signal a receive loop makes at most three more steps and has exited after the third, and until then its next step is open to it whatever its read returns and even when the channel is full |
| `Lifecycle.ReaderReturnsExactlyWhen` | hybrid2/receiver.go:352-366 | in every run a waiting reader can still return if and only if the stop signal has not come, or a datagram or an error is pending, or a receive loop is still reading or holds a datagram |
| `Lifecycle.FailedReadIsReported` | hybrid2/receiver.go:223-234 | before the stop signal a failed read wakes a waiting reader with an error; after it the loop just exits |
| `Lifecycle.WaitingReaderIsStranded` | hybrid2/receiver.go:352-366 | a reader that waits when Close is called on an idle session never returns |
| `Lifecycle.LateReaderIsRefused` | hybrid2/receiver.go:353-358 | a reader that calls after Close gets ErrSessionClosed |
| `GarlicSpec.OneSubsessionPerPorts` | garlic.go:347-386 | between two Closes each pair of ports gets at most one subsession and all identifiers differ, whatever fails |
| `GarlicSpec.LiveIsCreated` | garlic.go:256-279 | a live subsession has a live primary session and was created since the last Close |
| `GarlicSpec.CachedStays` | garlic.go:355-357 | a cached subsession serves every later call for its ports until Close |
| `GarlicSpec.FromPortIsStable` | garlic.go:315-343 | the persistent port is 0 or in 1024-65535 and stays once chosen until Close |
| `GarlicSpec.SamOpenExactlyWhen` | garlic.go:190-202 | after any calls the SAM connection in use is open if and only if there is one and no Close has found one; after such a Close none is opened again |
| `GarlicSpec.DialServes` | garlic.go:798-847 | with valid ports and SAM working DialContextToPort gets the subsession of exactly its ports: the given local port, the plain subsession without ports, or the persistent port, drawn from 1024-65535 on first use; no other pair gains or loses one |
| `GarlicSpec.DialRefuses` | garlic.go:798-831 | several local ports, a port out of range, an address that does not parse and a persistent port that cannot be drawn are refused and change nothing |
| `GarlicSpec.StreamServes` | garlic.go:549-572 | with SAM working ListenStream gets the plain subsession |
| `GarlicSpec.FailureGainsNothing` | garlic.go:256-279 | without SAM, a primary session or a subsession from it nothing is cached, and without SAM nothing returned |
| `GarlicSpec.ClosedIsEmpty` | garlic.go:894-912 | Close leaves nothing cached |
| `GarlicSpec.SubIdInjective` | garlic.go:369 | different ports have different identifiers |
| `GarlicSpec.DecimalInjective` | garlic.go:369 | decimal printing is injective |
| `Garlics.Garlic.constructor` | garlic.go:155-160 | nothing is created yet and an empty name means the default one |
| `Garlics.Garlic.EnsureSam` | garlic.go:190-202 | an existing SAM connection is kept, and a failed attempt leaves none |
| `Garlics.Garlic.SetupPrimarySession` | garlic.go:215-245 | an existing primary session is kept, and a failed attempt leaves none |
| `Garlics.Garlic.SetupStreamSubSession` | garlic.go:256-279 | returns what the cache then holds under (0, 0): the cached subsession, a new one over a live primary session, or none |
| `Garlics.Garlic.SetupStreamSubSessionWithPorts` | garlic.go:347-386 | returns what the cache then holds under the ports, (0, 0) meaning the plain subsession |
| `Garlics.Garlic.GetOrCreatePersistentFromPort` | garlic.go:328-343 | returns the persistent port, drawn on first use |
| `Garlics.Garlic.ListenStream` | garlic.go:549-572 | keeps the cache invariant and returns the plain subsession exactly when SAM is up and there is one, and always when SAM works |
| `Garlics.Garlic.DialContextToPort` | garlic.go:798-847 | keeps the cache invariant and returns what the cache then holds for the selected local port and the destination's port; with SAM working and the ports valid that is the subsession with the identifier of those ports |
| `Garlics.Garlic.DialContext` | garlic.go:753-791 | a destination with a port goes the way of DialContextToPort, one without to the plain subsession, and the result is what the cache then holds for them |
| `Garlics.Garlic.Close` | garlic.go:894-912 | every session and the persistent port are dropped; the SAM connection is closed but stays in its field, where later calls find it |
| `Hybrid1Frame.BuildFrame` | hybrid1/packetconn.go:156-169 | the filled buffer holds both ports and the payload |
| `Hybrid1Frame.FrameLayout` | hybrid1/packetconn.go:156-169 | source port, destination port, payload, each port with its high byte first |
| `Hybrid1Frame.ParseInvertsFrame` | hybrid1/session.go:136-152 | parsing a built frame returns both ports and the payload |
| `Hybrid1Frame.FrameInvertsParse` | hybrid1/session.go:142-152 | rebuilding from what was parsed gives the same bytes if and only if there were at least 4; fewer are all payload under the ports 0 |
| `Hybrid1Frame.WriteTo` | hybrid1/packetconn.go:94-147 | a frame goes out if and only if the connection is open, the deadline not past and the frame within the 64 KiB MTU, and it parses into the ports and the payload |

## Left out

- SendSolo.WindowIsFifo: stated for runs of fewer than 2^64 marks, because beyond that the code does not provide it
  (`SendWrap.WrapBreaksFifo`).
- SendSolo.AtMost499InARow: stated for one sending goroutine per destination, because the code provides no bound for
  two (`SendCalls.BoundedExactlyOneAtATime`).
- OnionRuntime.TorRuntime.CloseAllOnion: one goroutine; `ManagedOnions` has the interleavings of its sections.
- OnionRuntime.TorRuntime.ListenOnion: one goroutine; its two sections apart are in `ManagedOnions`.
- OnionRuntime.TorRuntime.DialOnion: one goroutine; its lookup, insertion and start apart are in `ManagedOnions`.
- AckNetwork.SoundExactlyWhenHarmless: stated for applications that may give SendDatagram some payload; one that never
  calls it asks for no ACK.
- FreshnessLimit.FreshExactlyWhenBounded: the necessity of the bound is shown for a positive gap that is, unless no
  refresh is lost, no shorter than the lag: with a shorter one the attempts made while a chosen datagram2 waits for its
  mark add marks of their own. Sufficiency has no such condition.
- PathMetrics.TimeoutsScaleQuality: quality is a real number; IEEE rounding is not modelled.
- Closing a session in the middle of sends is not part of `SendMachine`; it ends calls before their first section.
- SHA-256 is a function of the address under which no other address has the sender's hash; the zero hash that invalid
  addresses share does not occur.
- The sender table of hybrid1 (hybrid1/session.go:161-215) is left out: nothing reads it but its size. So are hybrid1's
  counters and deadlines, which would add easy members.
- What an error on the error channel says, receive timeouts, SendDatagramTimeout and the rest of the net.PacketConn
  wrappers: thin layers over what is modelled.
- The hybrid1 and hybrid2 sub-sessions of a Garlic, its package-level maps and its dialer: the pattern of the stream
  subsession without the ports.
- Parsing of addresses and ports: an address is given by the port found in it, or as unparsable.
- Keys, TLS, the embedded SAM bridge, proxies, signal handling and files: calls into libraries and the operating system.
