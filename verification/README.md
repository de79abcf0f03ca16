# Verified models of the IEC 60870-5 stack

A Dafny 4.11 model of the protocol core of this repository, and proofs of what that core is for: that
data arrives, once, in order, whatever the line does. `dafny verify dfyconfig.toml` checks everything.

The project follows the program's layers.

**IEC 60870-5-104.** `Apci` is the framing and its resynchronising reader. `Connection` specifies the
driver loop on a value `State`; the class in `ConnectionDriver`, one method per arm of the loop, is
proved against it and keeps the window invariant. `SendWindow` shows that the 15-bit arithmetic refines
unbounded counters. `DriverRuns` runs one driver against an arbitrary peer. `DataFlow`, `Handshake`,
`PeerLinks`, `TwoPeers` and `PeersSafety` connect a master and a controlled station by two FIFO channels
and prove safety over every interleaving. `OverlappingRequests` says exactly when a master may send, and
where overlapping requests lead.

**IEC 60870-5-101 and -103.** `Ft12` and `Ft12Stream` are the FT1.2 frame format. `PrimaryStation` and
`SecondaryStation` specify the two link procedures on values; the classes in `PrimaryLink` (the 101
primary and its 103 twin, told apart by a profile) and `SecondaryLink` are proved against them, down to
the octets they write. `FrameCount` is the frame count bit procedure on its own: one sender, one
receiver, a lossy line. `MultiDrop*` shows that every event of an unbalanced multi-drop line is a step of
that procedure for one station and leaves the other stations alone; `Balanced*` shows the same for the
two directions of a balanced line. `PrimaryTurns` and `Transactions` hold what the two share.
`PrimaryTrace` and `RoundRobin` say what an observer sees of a primary that receives arbitrary frames,
and `AccessDemand` how a station's class 1 data gets fetched.

**Codecs.** `AsduCodec` is the ASDU container, `ProcessInfo` the value formats of the twelve process
information families, `ObjectLists` the builder and getter loops, `ObjectRoundTrip` what they promise
together, and the file segment. `SummerTime` is the CP56Time2a tag and its summer
time bit.

`Octets` (with the errors of the whole stack), `Streams` and `Collecting` are small shared vocabulary.

## How to read the main results

- `PeersSafety.Safety`, `StopDrains`, `CountersOrdered`, `MasterWindowReopens` are about whole runs of
  two 104 drivers. Only the master requests STARTDT and STOPDT, an ASDU handed to the driver is 1 to 249
  octets, and no t1 expires. Requests may overlap, with one exception a caller can check: a stop is not
  requested while an earlier stop that a start has followed is unconfirmed (`TwoPeers.Disciplined`).
  `OverlappingRequests.OverlapCloses` shows the connection closing when that rule is broken.
- `FrameCount.Promise` and `FrameCount.NothingElseMissing` are the heart of the 101 results. A log with
  one entry per counted frame issued says whether it was acted on, with what answer, and whether it was
  confirmed; the frames never confirmed are exactly those the sender abandoned, besides the one under
  way. `MultiDropDelivery` and `BalancedDelivery` turn this into statements about messages. The line may
  lose every frame and every response; the assumption is that nothing arrives after the timer of its own
  attempt has fired, because responses carry no count bit. Station addresses are not the broadcast
  address; each station has a configuration of its own.
- The time of day never matters: every timer comparison is a parameter or an event of its own.
- A message is either the octets `marshal_binary` gives for it or something it refuses; the 101 and
  103 models carry the octets.

## What the code does not promise

- The driver takes the first STOPDT con for the answer to its last STOPDT act
  (src/cs104/connection.rs:377-388, 527-529). `OverlappingRequests.SendsAgainExactly` says exactly when a
  master sends again while its last stop is unconfirmed: when a stop confirmation has come in since, and
  the latest confirmation is a start. `OverlapCloses` is a run from the start of a connection that ends
  with the station closing it.
- A summer time shift other than 30, 60 or 120 minutes cannot be undone by the search over shifts
  (src/asdu/params.rs:173-186). `SummerTime.SummerTimeRoundTrip` gives the exact outcome for every
  shift, and `SummerTime.OddShiftLost` an hour lost in a zone that goes back by 45 minutes in autumn.
- `marshal_binary` accepts a cause of 64 or more and an originator address it has no octet for, and
  accepts types `unmarshal_binary` cannot size; `AsduCodec.UnmarshalMarshal` is the exact condition,
  and `WideCauseLost`, `OriginatorLost` and `PrivateTypeRefused` are inputs that miss it.
  `unmarshal_binary` accepts a zero cause or a zero common address, which `marshal_binary` refuses;
  `AsduCodec.MarshalUnmarshal` is the exact condition, and `ZeroesRefused` has such octets.

## Model

| member | source | states |
|---|---|---|
| Apci.NewIFrame | src/cs104/apci.rs:122-135 | an I-frame is built exactly when the ASDU is at most 249 octets, and is the frame that parses back |
| Apci.ParseEncode | src/cs104/apci.rs:166-227 | parsing any frame the three constructors build gives back its numbers, function and ASDU |
| Apci.EncodeParse | src/cs104/apci.rs:166-227 | any complete APDU the parser accepts is exactly the one the constructors build for what it returned |
| Apci.ReadApdu | src/cs104/apci.rs:234-259 | the resynchronising loop returns the first complete APDU of the stream and stops right behind it, inside its 255-octet buffer, or the stream holds none |
| Apci.StreamRoundTrip | src/cs104/apci.rs:234-259 | any list of built APDUs with any octets other than the start character between them is read and parsed back as that list |
| Apci.SeqNoCountIsDistance | src/cs104/apci.rs:263-270 | the wrapping count is the distance of the unbounded counters, below the modulus |
| ConnectionDriver.Driver.UpdateAckNoOut | src/cs104/connection.rs:640-660 | the in-place search and drain does what the specification of an acknowledgement says, or refuses it |
| ConnectionDriver.Driver.TransmitAsdu | src/cs104/connection.rs:359-375 | the send arm: numbers, piggybacked acknowledgement and octets queued, keeping the window invariant |
| ConnectionDriver.Driver.ControlRequest | src/cs104/connection.rs:377-394 | a start or stop request sets the stopping flag and writes its U-frame |
| ConnectionDriver.Driver.ReceiveFrame | src/cs104/connection.rs:396-563 | whatever octets arrive the window invariant holds afterwards; malformed frames ignored, closing branches, STOPDT con released once everything is acknowledged; the application is given exactly the accepted ASDUs that decode |
| ConnectionDriver.Driver.InformationFrame | src/cs104/connection.rs:426-480 | an I-frame is accepted in sequence, delivered if it decodes and acknowledged at w, or closes the connection |
| ConnectionDriver.Driver.UnnumberedFrame | src/cs104/connection.rs:482-549 | every U-function in either role |
| ConnectionDriver.Driver.TickerFired | src/cs104/connection.rs:565-617 | the timer arm for every outcome of its comparisons |
| SendWindow.UpdateAckRefinesWindow | src/cs104/connection.rs:640-660 | of the 32768 counters a number can stand for, exactly those inside the unbounded window are accepted, and exactly the acknowledged prefix is dropped |
| SendWindow.AckInWindow | src/cs104/connection.rs:640-660 | in the numbers themselves: accepted exactly when their wrapped distance lies in the window, dropping that many pending entries |
| SendWindow.ApduKeepsValid | src/cs104/connection.rs:415-562 | every reception keeps pending equal to the consecutive numbers in flight, at most k of them, and fewer than w unacknowledged |
| SendWindow.TransmitKeepsValid | src/cs104/connection.rs:347-375 | sending keeps the same invariant across the wrap |
| SendWindow.ReceivingSendsNoData | src/cs104/connection.rs:396-563 | no reception produces an I-frame |
| DriverRuns.WindowInvariant | src/cs104/connection.rs:346-618 | the window invariant holds after any run against any peer, which may send any octets |
| DriverRuns.StoppedStationIsSilent | src/cs104/connection.rs:347-349 | a stopped station sends no I-frame before the frame that starts it, whatever happens |
| DriverRuns.StoppingMasterIsSilent | src/cs104/connection.rs:384-387 | from STOPDT act a master sends no I-frame before the first stop confirmation or start request (the exact condition is OverlappingRequests.MasterMaySendExactly) |
| OverlappingRequests.MasterMaySendExactly | src/cs104/connection.rs:347-349 | after any run against any peer that leaves it open, a master may send if and only if its latest start or stop confirmation was a start, no stop was requested since the latest start request or stop confirmation, and the window is open |
| OverlappingRequests.SendsAgainExactly | src/cs104/connection.rs:377-388 | a master whose last request was a stop sends again if and only if a stop confirmation has come in since and the latest confirmation is a start |
| OverlappingRequests.OverlapCloses | src/cs104/connection.rs:434-439 | a run of two peers from the start of the connection: stop, start and stop in one breath ends with the stopped station closing on an I-frame |
| PeersSafety.Safety | src/cs104/connection.rs:415-480 | two drivers, any interleaving, any number of wraps, any requests but a stop behind an unconfirmed stop that a start has followed: neither closes, no I-frame reaches a stopped peer, what each accepted is a prefix of what the other sent |
| PeersSafety.StopDrains | src/cs104/connection.rs:485-562 | when STOPDT con is emitted the master has accepted all the station ever sent and the station owes no acknowledgement; unless a start is on its way it has also accepted all the master ever sent |
| PeersSafety.CountersOrdered | src/cs104/connection.rs:468-479 | in unbounded counters: sender acknowledged <= every acknowledgement in flight in turn <= receiver acknowledged <= received <= sent <= acknowledged + k, and fewer than w owed |
| PeersSafety.MasterWindowReopens | src/cs104/connection.rs:589-602 | with frames outstanding and empty channels, the station's tick acknowledges and its delivery empties the master's window |
| PeersSafety.StationWindowReopens | src/cs104/connection.rs:589-602 | the same in the other direction |
| PeersSafety.StepKeeps | src/cs104/connection.rs:346-618 | every allowed event keeps the two-peer invariant of flow, window and start/stop procedure |
| TwoPeers.Confirmed | src/cs104/connection.rs:520-534 | taking a confirmation keeps the procedure: a master that is stopping or stopped is not let go early |
| Ft12.MarshalFrame | src/cs101/frame.rs:292-340 | filling the buffer step by step gives the specified octets, or an error for widths and lengths the format cannot carry |
| Ft12.Checksum | src/cs101/frame.rs:352-358 | the wrapping accumulation is the sum of all octets modulo 256 |
| Ft12.ReadFrame | src/cs101/frame.rs:374-457 | the reader returns and consumes what the specification of one reading says, for every link address width |
| Ft12.ControlRoundTrip | src/cs101/frame.rs:156-194 | a control field that uses only its direction's bits survives its octet |
| Ft12.ControlOctetRoundTrip | src/cs101/frame.rs:156-194 | every octet is the value of the control field parsed from it |
| Ft12Stream.MarshalSucceeds | src/cs101/frame.rs:292-340 | within the link address widths a frame is refused exactly when its length octet cannot count it |
| Ft12Stream.StreamRoundTrip | src/cs101/frame.rs:374-457 | any list of frames with noise between them is read back as exactly those frames; each noise octet costs one error; link address widths 0, 1 and 2 |
| Ft12Stream.SingleOctetErrorDetected | src/cs101/frame.rs:389-453 | replacing any one octet but the first of any frame of any length makes the reader report an error |
| PrimaryStation.ScanTakesEarliest | src/cs101/client.rs:1072-1093 | the queue scan takes the earliest entry whose station is active and not busy, drops the unknown ones it passed and keeps the rest in order |
| PrimaryStation.ScanTakesFirst | src/cs101/client.rs:1072-1093 | the scan takes the first message waiting for the station it picks and none of any other configured station |
| PrimaryLink.Shared.SendTo | src/cs101/client.rs:538-551 | a message enters the queue, or is refused without a connection or when the queue is full |
| PrimaryLink.LinkState.SendPrimConfirmed | src/cs101/client.rs:753-767 | a request frame goes out as octets, becomes the outstanding frame and arms t1 |
| PrimaryLink.LinkState.ConfirmPositive | src/cs101/client.rs:790-835 | completing a transaction: count bit, phase and demand of that station only, wrong stations ignored |
| PrimaryLink.LinkState.FailTransaction | src/cs101/client.rs:839-854 | aborting a transaction restarts that station only |
| PrimaryLink.LinkState.HandleFrame | src/cs101/client.rs:857-970 | every received frame, in both modes: state, octets written, delivery |
| PrimaryLink.LinkState.HandlePeerPrimaryFrame | src/cs101/client.rs:976-1024 | duplicate detection and answers of the balanced secondary role |
| PrimaryLink.LinkState.Tick | src/cs101/client.rs:1028-1068 | queued user data first, then one round-robin step |
| PrimaryLink.LinkState.PollStations | src/cs101/client.rs:1037-1067 | the polling loop looks at each station at most once and skips active ones in balanced mode |
| PrimaryLink.LinkState.PollNext | src/cs103/client.rs:881-896 | the 103 tick serves exactly one device, as the 101 loop does on an unbalanced line |
| PrimaryLink.LinkState.TakeSendable | src/cs101/client.rs:1072-1093 | the removing loop over the shared queue is the specified scan |
| PrimaryLink.LinkState.TrySendQueued | src/cs101/client.rs:1071-1123 | the chosen message is framed, sent and becomes outstanding, or is dropped when it cannot be encoded |
| PrimaryLink.LinkState.OnT1Timeout | src/cs101/client.rs:1127-1160 | the identical frame is repeated up to the limit, then the station restarts; losing the only peer ends the connection; like every method it keeps t1 running exactly while a frame is outstanding |
| PrimaryLink.LinkState.OnT3Timeout | src/cs101/client.rs:1163-1172 | an idle link with an active station is tested, or polled by the 103 profile |
| PrimaryLink.LinkState.HandleLinkRequest | src/cs101/client.rs:1175-1203 | manual requests only on a free link to a known station |
| SecondaryLink.Shared.Send | src/cs101/server.rs:424-441 | a message enters the buffer of its class, or is refused without a connection or when that buffer is full |
| SecondaryLink.Shared.TakeClass | src/cs101/server.rs:58-68 | a poll takes the front of its own class, else of the other |
| SecondaryLink.SecondaryState.RespondClassData | src/cs101/server.rs:545-571 | a poll is answered with the message taken, or no data, and the answer is cached |
| SecondaryLink.SecondaryState.HandlePrimaryFrame | src/cs101/server.rs:640-704 | contradictory FCV ignored, repeated frames answered from the cache and not acted on, new ones served |
| SecondaryLink.SecondaryState.HandleFrame | src/cs101/server.rs:591-704 | addressing, broadcast and direction, then the primary's frame |
| SecondaryLink.SecondaryState.PrimConfirm | src/cs101/server.rs:709-727 | the balanced primary role completes its transaction |
| SecondaryLink.SecondaryState.PrimTick | src/cs101/server.rs:761-816 | repetition, giving up, link reset and the next queued message of the balanced primary role |
| FrameCount.ActKeeps | src/cs101/server.rs:649-666 | acting once on a frame keeps sender, receiver and log consistent |
| FrameCount.ReplayKeeps | src/cs101/server.rs:649-664 | answering a repetition from the cache keeps them consistent |
| FrameCount.ConfirmKeeps | src/cs101/client.rs:806-835 | flipping the bit only on confirmation keeps them consistent |
| FrameCount.GiveUpKeeps | src/cs101/client.rs:1144-1153 | abandoning a transaction and restarting the link keeps them consistent; only a counted frame enters the list of abandoned ones |
| FrameCount.Promise | src/cs101/server.rs:645-687 | the receiver acts on a subsequence of the frames issued, and the sender sees a subsequence of those confirmed with the receiver's own answers |
| FrameCount.NothingElseMissing | src/cs101/client.rs:1144-1153 | exact account of the frames of any sort: issued equals confirmed plus abandoned plus the one under way |
| FrameCount.NoOtherAnswerMissed | src/cs101/server.rs:649-664 | an answer the sender never saw was given to an abandoned frame of its sort or to the one under way |
| PrimaryTurns.TickIsFresh | src/cs101/client.rs:1028-1123 | a tick on a free link is silent or sends one fresh frame: counted frames to an active link with its next bit, user data to a station not busy; both modes, both profiles |
| PrimaryTurns.ResponseIsSettledThenDemand | src/cs101/client.rs:887-968 | a response first settles the transaction, then an access demand may start the next |
| Transactions.SettledEnds | src/cs101/client.rs:887-955 | how any response ends, or does not end, the outstanding transaction of its station, leaving the others alone |
| Transactions.StationServes | src/cs101/server.rs:640-704 | the addressed station answers every frame of the primary once, moves its expected bit only for new counted frames and repeats its cached answer otherwise |
| AccessDemand.DemandIsShown | src/cs101/server.rs:519-664 | every frame of the primary is answered, and the answer shows a demand if and only if class 1 data is waiting, except that a repeated frame is answered with the cached frame and takes nothing |
| AccessDemand.DemandIsFollowed | src/cs101/client.rs:955-968 | a shown demand is fetched at once when the link to an active station is free, and otherwise marks the station |
| AccessDemand.MarkedIsAskedForClass1 | src/cs101/client.rs:1053-1065 | the poll of an active station asks for class 1 exactly when it is marked |
| AccessDemand.MarkExactly | src/cs101/client.rs:807-853 | after any event a station is marked if and only if the event showed its demand, or it was marked and the event neither confirmed its class 1 request nor restarted its link |
| AccessDemand.MarkLasts | src/cs101/client.rs:807-853 | over any run a marked station stays marked until its class 1 request is confirmed or its link restarts |
| MultiDropSafety.OthersSilent | src/cs101/server.rs:584-609 | stations not addressed neither answer nor change |
| MultiDropSafety.FrameKeeps | src/cs101/server.rs:591-704 | a frame reaching the line keeps every station's link consistent with the primary |
| MultiDropSafety.ResponseKeeps | src/cs101/client.rs:857-970 | so does a response reaching the primary, with the access-demand poll it may start |
| MultiDropSafety.OverdueKeeps | src/cs101/client.rs:1127-1160 | so does every expiry of t1 or t2 |
| MultiDropRuns.StepKeeps | src/cs101/client.rs:857-1203 | every event of the line keeps all links consistent |
| MultiDropRuns.LineCarriesFrames | src/cs101/frame.rs:374-457 | the octets of whatever is on the line after any run read back as that frame and nothing else |
| MultiDropDelivery.UserDataDelivered | src/cs101/client.rs:790-835 | over any lossy run each station's handler gets each queued message at most once and in queue order, the confirmed ones among them; every message taken off the queue is confirmed, or was the frame of an abandoned transaction, or is under way, and the count is exact |
| MultiDropDelivery.ConfirmedExactlyOnce | src/cs101/server.rs:645-687 | frame by frame: acted on at most once, confirmed only if acted on and with that answer; the unconfirmed ones are exactly the abandoned ones and the one under way, which, if acted on, was answered with what the station has cached |
| MultiDropDelivery.PolledDataConserved | src/cs101/server.rs:545-571 | what a station accepted is, by class and in order, what polls took followed by what is buffered; the primary delivers each at most once in that order, losing at most one per abandoned class poll besides the one cached for a poll under way |
| PrimaryTurns.TickSends | src/cs101/client.rs:1071-1123 | the user data a tick puts on the line is exactly the message the scan took, and nothing when that cannot be encoded |
| PrimaryTrace.TraceSafety | src/cs101/client.rs:753-767 | whatever is received and whenever timers run out, every frame written is allowed by an independent observer: one outstanding at a time, identical repetitions up to the limit, counted frames to reset links with bits 1,0,1,0,..., no user data to a busy station; t1 is armed exactly while one is outstanding |
| PrimaryTrace.StepKeeps | src/cs103/client.rs:762-1033 | each step of either profile writes only what the observer allows |
| PrimaryTrace.PeerAgrees | src/cs101/client.rs:976-1024 | the balanced secondary role does not disturb the primary role |
| RoundRobin.CursorMoves | src/cs101/client.rs:1037-1067 | a polling step serves the station at the cursor and advances it; nothing else moves the cursor |
| RoundRobin.Fair | src/cs103/client.rs:879-897 | any n consecutive polls of any run serve the n configured stations, each as often as listed |
| RoundRobin.TickPolls | src/cs101/client.rs:1028-1068 | a tick on a free link with nothing to send does poll one station |
| BalancedDelivery.StepKeeps | src/cs101/server.rs:709-816 | every event of a balanced line keeps both directions consistent and leaves the count bit procedure of the other direction exactly as it was |
| BalancedDelivery.BothDirectionsDeliver | src/cs101/client.rs:976-1024 | over any lossy run both directions deliver at most once and in order, exactly once when confirmed; every message taken is confirmed, or was abandoned, or is under way, with an exact count and the place of the one under way |
| BalancedSafety.FrameAtAKeeps | src/cs101/client.rs:987-1011 | the client's constant acknowledgement of a repeated frame serves as its cached answer |
| AsduCodec.MarshalBinary | src/asdu/codec.rs:148-203 | the buffer filled is the specified one, and every error comes in the order of the checks |
| AsduCodec.UnmarshalBinary | src/asdu/codec.rs:210-245 | parsing gives the specified ASDU or error |
| AsduCodec.Message.FixSize | src/asdu/codec.rs:254-311 | the payload is trimmed in place to its implied size, or left alone with the right error |
| AsduCodec.UnmarshalMarshal | src/asdu/codec.rs:148-245 | unmarshalling what was marshalled gives the ASDU back if and only if its type can be sized, its cause is below 64 and it has no originator it cannot carry |
| AsduCodec.WideCauseLost | src/asdu/codec.rs:184-187 | an ASDU with cause 67 marshals and comes back with cause 3 |
| AsduCodec.OriginatorLost | src/asdu/codec.rs:188-190 | an originator marshals without an octet and comes back as zero |
| AsduCodec.PrivateTypeRefused | src/asdu/codec.rs:176-182 | an ASDU of a private type marshals and is refused on the way back |
| AsduCodec.MarshalUnmarshal | src/asdu/codec.rs:210-245 | accepted octets marshal back if and only if their cause and common address are not zero: to themselves under strict parameters, to a prefix under lenient ones |
| AsduCodec.ZeroesRefused | src/asdu/codec.rs:154-164 | octets with a zero cause, or a zero common address, that are accepted and do not marshal back |
| ProcessInfo.ValueRoundTrip | src/asdu/mproc.rs:371-1480 | for all twelve families and every type of each a value has the size the type says and comes back up to the documented masks and widths |
| ProcessInfo.SizesAgree | src/asdu/identifier.rs:336-389 | the size table is the width of a value and its time tag for every type of the twelve families |
| ObjectLists.BuildObjects | src/asdu/mproc.rs:371-398 | the appending loop builds the specified ASDU or fails with the first error |
| ObjectLists.GetObjects | src/asdu/mproc.rs:444-468 | the reading loop returns the specified list or the first error |
| ObjectLists.GetOneObject | src/asdu/mproc.rs:1340-1362 | the getter of packed events returns the one object specified, or the first error |
| ObjectLists.Encoder.InfoObjAddr | src/asdu/codec.rs:367-390 | an address is written in its configured width, or refused when it does not fit |
| ObjectLists.InfoObjReader.NextObjAddr | src/asdu/codec.rs:646-657 | an address is read, or implied by the previous one under SQ |
| ObjectRoundTrip.BuiltMarshals | src/asdu/codec.rs:254-293 | a built payload has exactly the length its type and qualifier imply, so marshalling never fails on length |
| ObjectRoundTrip.FamilyRoundTrip | src/asdu/mproc.rs:371-1480 | for all twelve families, any valid parameters and any list the builder accepts, the getter returns it up to masks and implied addresses, and it marshals |
| ObjectRoundTrip.OneObjectRoundTrip | src/asdu/mproc.rs:1291-1438 | a packed event the builder accepts is what the getter of single objects returns, and it marshals |
| ObjectRoundTrip.ReadBackAt | src/asdu/codec.rs:641-657 | object by object: with SQ the i-th address is the first plus i, else the one given |
| ObjectRoundTrip.EndToEnd | src/asdu/codec.rs:148-245 | what one end builds and marshals the other unmarshals and reads |
| ObjectRoundTrip.SegmentRoundTrip | src/asdu/filet.rs:725-758 | a file segment the builder accepts is read back, and its ASDU round-trips through the octets |
| ObjectRoundTrip.SegmentLimit | src/asdu/filet.rs:404-409 | the size limit of a segment is exactly what one ASDU can hold |
| SummerTime.SummerTimeRoundTrip | src/asdu/params.rs:139-186 | years 2000 to 2099, any zone at standard time s or s+d around the instant: the decoded instant is the encoded one if and only if it is not the second occurrence of its reading or d is 30, 60 or 120 minutes, else the first occurrence |
| SummerTime.OddShiftLost | src/asdu/params.rs:177-185 | in a zone on summer time from April that goes back by 45 minutes in October, a time of the repeated hour decodes to its first occurrence |
| SummerTime.FixedRoundTrip | src/asdu/time.rs:83-100 | UTC and fixed offsets give every instant back |
| SummerTime.FlagsRoundTrip | src/asdu/time.rs:106-136 | the validity flags come back, and only a tag that is not invalid is trusted |
| SummerTime.DecodedReading | src/asdu/time.rs:138-155 | whatever tag is decoded in whatever zone, the instant shows the reading of the octets |
| SummerTime.ResolvedReading | src/asdu/params.rs:169-186 | resolving keeps the wall clock and honours the bit whenever a shift can |

## Left out

- Tasks, sockets, TLS, serial ports, reconnect loops and callbacks: replaced by events and channels; a run ends where the connection does.
- Clocks and timer values: an expiry is an event or a parameter, so the theorems hold for all of them; a connection lost because t1 expired is not followed into the next one.
- PeersSafety.Safety: does not model `demote` or t1 expiry, and excludes a stop requested behind an unconfirmed stop that a start has followed, which closes the connection (see OverlapCloses).
- PeersSafety.Safety: speaks of the raw ASDUs accepted; which of them decode is the class's Recorded().
- MultiDropDelivery.UserDataDelivered: responses arriving after the timer of their attempt are excluded, since they carry no count bit.
- MultiDropDelivery.PolledDataConserved: whether the poll an abandoned transaction carried had been acted on is not counted, so the loss is a bound.
- RoundRobin.Fair: unbalanced lines only; a balanced primary does not poll.
- PrimaryLink.LinkState.Tick: a closed output channel, the one way a write can fail for frames of this module, is not modelled.
- Link address width 0: the frame format covers it; the link procedures are modelled for widths 1 and 2.
- ObjectLists.BuildObjects: the cause checks of the per-type wrappers are single conditions and would only add easy members.
- ObjectLists.BuildObjects: a time tag is an opaque run of octets; its content is the subject of SummerTime.
- SummerTime.SummerTimeRoundTrip: leap seconds and times finer than a millisecond; the Gregorian calendar is a parameter that only names days.
- CP24Time2a date completion from the host clock, the 103 ASDU fields, the single-object command and parameter codecs, the file directory: easier members of families already covered.
- Floating point values: carried as their bit pattern.
- File transfer procedures, the 104 server and redundancy groups are not part of this model.
