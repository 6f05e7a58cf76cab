# NewProber in Dafny

NewProber runs timed PING and UDP probes. A master process keeps one JSON configuration per id, loads
them from a file, takes edits over HTTP and gives each configuration to one of its forked workers over
a socketpair. A worker keeps one test per id, runs it on a timer and reports what it found.

This project models that logic and proves what it keeps over whole runs.

| files | what they model |
|---|---|
| `Checksum`, `Timeval`, `Bytes` | the Internet checksum and `tv_sub` of `tool.cpp`; bytes and fixed-width integers |
| `Channel`, `ByteStream` | fixed-size frames on a byte stream, and why the loop that cuts them is a FIFO of messages |
| `Master`, `Worker` | the two processes as classes, each method proved against a function on its state |
| `Distribution`, `Agreement` | master, workers and message queues under every interleaving |
| `Requests`, `Incidents` | the conditions on requests, exactly, and two runs in which one fails |
| `Wiring` | the system over byte streams, which refines the system of queues |
| `Balance` | how evenly configurations are spread |
| `ConfFile`, `Restart` | writing and loading the configuration file |
| `PingWire`, `PingStats` | echo packets and round statistics |
| `PingRound`, `PingLaws`, `PingCounts` | the PING state machine, its reports, and its counters told from the events alone |
| `AddrKey`, `UdpVerdict` | the unreachable index and the UDP tests as classes |
| `UdpRuns`, `UdpLaws`, `UdpLimits` | the race between errors, reads and timeouts in time, and its exact conditions |
| `Metric`, `Ordered` | the JSON members that are read, and iteration over a `std::map` |

Where the program mutates fields or buffers, the model is a class or an array method whose `ensures` give the
whole new state as a function of the old; the laws are lemmas about those functions. Where a promised
property is false of the code, the condition under which it holds is proved in both directions.

What the laws come to:

* `in_cksum` meets section 1 of RFC 1071 exactly when the plain sum of the words stays below 2^32. 65537 words
  always do; 65538 words of all ones do not. A stored checksum verifies even past that bound.
* A text reaches the other end of a channel exactly when it is shorter than 1000 bytes and has no NUL. Under
  every chunking of the bytes the two streams of each worker do what the two message queues do.
* Under restrained requests every live configuration ends on the one worker its route names, and
  acknowledgements change nothing. Adding an id is safe, then and later, exactly when its text fits a frame,
  has a known type, and no other worker is still to receive or acknowledge that id. The distribution is safe
  exactly when no id still live was given to a worker before it. An edit never reaches the test it edits: the
  worker has no case for EDITCONF. A receive loop goes on past every message but a malformed addition or deletion,
  after which the later ones wait for the next bytes.
* A configuration file is loaded up to the first line that counts and is no metric text.
* The minimum search is right exactly while some worker is below its bound of 1000000 or the first one is
  least loaded.
* A chained PING round reports once exactly when every send works and no reply is rejected. A round driven by a
  timer, without timeouts, reports twice when an accepted reply comes between its last probe and the end of its
  timer, else once. A read handled after a report dereferences the address that the report released and loses
  the process, and nothing else does. Overlapping rounds can report a loss of -100.
* While timeouts are shorter than periods, every UDP run with a timeout gets one verdict and every socket is
  closed at most once, whatever errors arrive; with a longer timeout some run closes a socket twice. A deleted
  event is used, or an error held against the wrong test, in some run exactly when two tests share a target and
  one of them waits for outcomes.

## Model

| member | source | states |
|---|---|---|
| `Checksum.InCksum` | tool.cpp:15-34 | the pointer loop over a byte array computes the folded 32-bit sum of its words, and that is RFC 1071's checksum iff the plain sum is below 2^32 |
| `Checksum.CorrectExactlyBelowWrap` | tool.cpp:17-32 | for every buffer a C int can measure: code and standard agree iff the accumulator does not wrap |
| `Checksum.CorrectUpTo65537Words` | tool.cpp:21-32 | up to 65537 words the sum cannot wrap, and the result is the complement of the sum's residue modulo 65535 |
| `Checksum.WrongAt65538Words` | tool.cpp:21-32 | the bound is tight: 65538 words of all ones give 1 where the standard gives 0 |
| `Checksum.TwoFoldsSuffice` | tool.cpp:30-32 | two folds, the second unmasked, reduce any 32-bit sum to its residue, zero only for zero |
| `Checksum.OnesSumIsResidue` | tool.cpp:21-31 | the standard's end-around-carry sum is that same residue of the plain sum |
| `Checksum.OddTailPadded` | tool.cpp:26-29 | the words are loaded in the byte order of the host, and an odd buffer sums as if a zero byte followed it |
| `Checksum.ByteOrderIndependent` | tool.cpp:18-28 | RFC 1071 section 2(B): the other byte order gives the byte-swapped checksum |
| `Checksum.SameBytesOnTheWire` | ping_test.cpp:182-183 | so both byte orders leave the same bytes in the packet |
| `Checksum.StoredChecksumVerifies` | ping_test.cpp:182-183 | a packet whose zero checksum word is filled in checks to 0, at every length |
| `Checksum.OneWordChangeDetected` | tool.cpp:15-34 | overwriting one word of a verified packet keeps checksum 0 iff the word is unchanged, 0 becomes 0xFFFF, or 0xFFFF becomes 0 with another word set |
| `Timeval.TvSub` | tool.cpp:5-11 | in place, also when both arguments are one object: the new value is the exact difference in microseconds |
| `Timeval.MinusIsExact` | tool.cpp:5-11 | one borrow is exact for all operands and normalised for normalised ones |
| `Channel.FrameRoundTrip` | tool.h:23-26 | a frame is recovered from its 1004 bytes |
| `Channel.DeliveredExactlyWhenFits` | master.cpp:345-354 | the reader of a frame finds the text that was sent iff it is shorter than 1000 bytes and NUL-free |
| `Channel.AckRoundTrip` | worker.cpp:240-243 | the id a worker writes into the frame is the id the master copies out |
| `ByteStream.CutConserves` | worker.cpp:219-222 | taken frames and remaining bytes are the input, nothing lost or reordered |
| `ByteStream.DrainedExactly` | worker.cpp:219-234 | a callback leaves less than a frame iff no complete frame before the last makes it return |
| `ByteStream.PrefixDelivered` | worker.cpp:217-222 | after any writes, chunking and callbacks the handled frames are a prefix of those sent and the rest is buffered or on the wire |
| `ByteStream.StepRefinesFifo` | worker.cpp:217-222 | every step of the byte channel appends to, leaves alone or takes a prefix off the frame queue |
| `ByteStream.AllDelivered` | worker.cpp:217-222 | once all bytes have arrived, one callback with no early return delivers everything |
| `Master.LeastFromPicks` | master.cpp:495-504 | the search returns its initial pick if no size is below the bound, else a smallest entry |
| `Master.Master.constructor` | master.cpp:297-300 | one empty `config_map` entry for each channel |
| `Master.Master.SendMsg` | master.cpp:345-354 | one message is appended to one channel, the others keep theirs |
| `Master.Master.DistributeConf` | master.cpp:325-343 | the iterator loop does one round-robin round per id, in key order |
| `Master.Master.FindLeast` | master.cpp:493-506 | the iterator loop finds the channel the minimum search specifies |
| `Master.Master.DealMetricRequest` | master.cpp:478-516 | a POST is ignored, adds to the least-loaded worker, or is an edit forwarded along the route, with the whole new state |
| `Master.Master.DeleteMetricRequest` | master.cpp:551-569 | a delete is ignored or erases the id and tells the worker it is routed to; `config_map` keeps its entry |
| `Master.OthersIgnored` | master.cpp:482-488 | a body that does not parse, or has no id or no type, changes nothing, whether posted or deleted |
| `Master.UnknownDeleteIgnored` | master.cpp:563-566 | nor does a delete of an unknown id |
| `Master.AddTells` | master.cpp:505-510 | an addition books the id with the chosen worker, routes it there and appends one ADDCONF with the text to that queue only |
| `Master.EditTells` | master.cpp:512-515 | an edit stores the text, keeps every route and appends one EDITCONF to the queue of the routed worker only |
| `Master.DeleteTells` | master.cpp:562-568 | whatever the rest of its body says, a delete of a known id removes it, keeps routes and books, and appends one DELCONF to the queue of the routed worker only |
| `Master.Master.DealChannelData` | master.cpp:388-408 | every complete frame is cut out of the buffer, each ADDCONF frame routes the id it carries to the channel it came on, and the rest of the bytes stays |
| `Master.OtherFramesIgnored` | master.cpp:398-406 | a frame of another type than ADDCONF acknowledges nothing, wherever it stands |
| `Master.Master.FlushTestConf` | master.cpp:427-443 | the file written is every text in key order, each followed by an empty line |
| `Master.Master.GetTestConf` | master.cpp:190-221 | the line loop loads what `Load` specifies, with its return code |
| `Worker.Worker.Add` | worker.cpp:153-163 | the entry is overwritten and one more timer is armed |
| `Worker.Worker.Remove` | worker.cpp:344-355 | -1 and no change for a missing id; 0 for a present one, which loses entry and timer |
| `Worker.Worker.HandleOne` | worker.cpp:228-266 | the switch: add and acknowledge, delete, or no effect on `test_map`; a text with no known type kills the worker |
| `Worker.MessageEffects` | worker.cpp:228-266 | by message number and what the text parses to: an addition of a PING or UDP test sets the entry, arms one timer and is acknowledged, any other addition loses the worker, a deletion needs only the id, and nothing else has an effect |
| `Worker.Worker.DealChannelData` | worker.cpp:217-268 | the frames that the loop cuts out are handled in order and the rest of the bytes stays; `Wiring.CallbackExactly` says which frames these are |
| `Distribution.StepInv` | master.cpp:325-570 | distribution, add, edit, delete, receive and acknowledgement each keep the invariant of the whole system, before the distribution and after it |
| `Distribution.RunInv` | master.cpp:325-570 | so it holds in every state that any restrained interleaving reaches |
| `Distribution.AckKeepsRoute` | master.cpp:399-403 | an acknowledgement in flight names the worker the route already names |
| `Agreement.EventualAgreement` | worker.cpp:217-268 | in every reachable state, handling a worker's pending messages leaves in `test_map` exactly the live ids routed to it, each with the text it was added with; after distribution every live id is routed to a worker |
| `Agreement.QuietAgreement` | worker.cpp:217-268 | with an empty queue that already holds, one armed timer for each test |
| `Agreement.MessagesAlternate` | worker.cpp:228-257 | the next ADDCONF never overwrites a live test, the next DELCONF finds its id in `test_map` and never returns -1, timers are in bijection with `test_map` |
| `Agreement.AcksAreHarmless` | master.cpp:388-408 | in every reachable state handling an acknowledgement leaves the master unchanged |
| `Agreement.EditsNeverReachTests` | master.cpp:512-515 | an edit changes `configid_map`, but not what any worker holds once it has handled its queue |
| `Agreement.DeleteIsFinal` | master.cpp:562-568 | after a delete in a reachable state the id is gone from the master and from every worker that reads its queue, and no other test is |
| `Agreement.DrainIsTakeFrames` | worker.cpp:217-268 | letting a worker read its queue is what its loop does to the frames of that queue |
| `Requests.AddIsSafeExactly` | master.cpp:490-511 | in a reachable state, adding a new id keeps agreement, then and however what is under way arrives later, iff its text fits, has a known type, and no other worker is still to receive or acknowledge that id |
| `Requests.DistributionIsSafeExactly` | master.cpp:366-369 | in a reachable state, the distribution keeps agreement iff no id still live was given to a worker by an earlier request |
| `Wiring.StepRefines` | worker.cpp:217-268 | over the byte streams, every request, arrival of any number of bytes and callback is a request, nothing, or receives or acknowledgements of one worker in the system of queues |
| `Wiring.RunRefines` | master.cpp:345-408 | so every run over the streams refines a run of the queues with the same requests in the same order |
| `Wiring.BootRefines` | master.cpp:297-300 | streams on which nothing has been written refine the state in which the master starts |
| `Wiring.WiredAgreement` | worker.cpp:217-268 | where a restrained run has led, a worker that handles every frame still on its way holds exactly the live ids routed to it |
| `Wiring.CallbackExactly` | worker.cpp:219-257 | once the bytes have arrived, a callback handles all messages of the queue, or those up to the first ADDCONF or DELCONF that is not JSON, and exactly the later ones stay in the buffer |
| `Wiring.MalformedStays` | worker.cpp:231-235 | the malformed message itself changes nothing |
| `Wiring.OneCallbackDelivers` | worker.cpp:217-268 | where a restrained run has led and the bytes have arrived, one callback empties the buffer and leaves exactly the live ids routed to the worker |
| `Incidents.LateAckOrphansATest` | master.cpp:399-403 | a run in which a late acknowledgement moves a route, so that the next delete misses and the test stays for good |
| `Incidents.EarlyRequestArmsTwice` | master.cpp:366-369 | a run in which a request before the distribution leaves one id with two armed timers |
| `Balance.SearchIsRightExactly` | master.cpp:493-506 | the chosen worker is least loaded iff some size is below 1000000 or the first worker is least loaded |
| `Balance.FirstTakesAllBeyondBound` | master.cpp:495-504 | with every size at the bound, all further configurations go to the first worker |
| `Balance.DistributeIsEven` | master.cpp:325-343 | round robin gives each worker its whole number of turns and counts every id once |
| `Balance.LoadIsBalanced` | master.cpp:329-332 | in any run, while some size is below 1000000: sizes differ by at most 2 and sum to the assignments made |
| `Balance.LoadIsTightlyBalanced` | master.cpp:493-508 | they differ by at most 1 in every run in which additions wait for the distribution |
| `ConfFile.LoadedIsKeyed` | master.cpp:210-217 | whatever the file, each loaded text is one line with a type and is stored under its own id |
| `ConfFile.LinesOfFile` | master.cpp:197-200 | the lines of a file hold no line break and put together with one between any two give the file |
| `ConfFile.LoadedExactly` | master.cpp:201-220 | a line counts when after blanks, within 256 bytes, it has a byte other than NUL, line break or hash sign; loading ends with -1 at the first such line that is no metric text, else with 0, each id takes its text from the last counting line before that which names it, and all other lines are skipped |
| `ConfFile.RoundTripExactly` | master.cpp:427-443 | flush then load into an empty map gives the map back iff every text is one line that counts and that parses to its key |
| `Restart.RestartRestoresExactly` | master.cpp:190-221 | in every state that any run reaches that holds iff every text is one line that counts |
| `Restart.LoadBoots` | master.cpp:190-221 | whatever the file holds, the map loaded from it is one the master can start from |
| `PingWire.FillProbe` | ping_test.cpp:170-183 | the send buffer holds the checksummed echo request, and nothing past it changes |
| `PingWire.EchoRequestVerifies` | ping_test.cpp:182-183 | every request carries a checksum that verifies |
| `PingWire.EchoRequestFields` | ping_test.cpp:174-181 | a request has type 8, code 0, identifier and sequence number modulo 65536, the send time and the fill bytes |
| `PingWire.OwnReplyAcceptedExactly` | ping_test.cpp:238-265 | behind any IP header, the reply to a probe is accepted with its 16-bit sequence number and receive minus send time iff the process id fits 16 bits, and rejected otherwise; that time is nonnegative iff the clock did not step back |
| `PingWire.InspectExactly` | ping_test.cpp:238-265 | accepted are exactly the echo replies with our identifier that leave 16 bytes, or are shorter than their own IP header, which wraps; other protocols, short packets and other identifiers are rejected |
| `PingStats.Summarise` | ping_test.cpp:297-316 | the two loops give minimum, mean, maximum and mean squared deviation of any nonempty list |
| `PingStats.MinMeanMax` | ping_test.cpp:299-311 | minimum <= mean <= maximum |
| `PingStats.VarianceIdentity` | ping_test.cpp:312-316 | the two-pass variance is the mean of squares minus the square of the mean |
| `PingStats.VarianceBounds` | ping_test.cpp:312-316 | 0 <= variance <= (max-avg)(avg-min) <= (max-min)^2/4 |
| `PingRound.PingTest.Start` | ping_test.cpp:104-128 | a round starts with a new socket, its address, counters at zero and either a timer or a first probe; old events stay |
| `PingRound.PingTest.Probe` | ping_test.cpp:170-202 | one request goes out; only a send that works counts and leaves a read event; without an address the process is lost |
| `PingRound.PingTest.Receive` | ping_test.cpp:207-225 | without an address the process is lost; else the packet lands in the buffer, or nothing does when the read fails, and it is counted before it is inspected |
| `PingRound.PingTest.Process` | ping_test.cpp:230-280 | accepted data is appended, the receive time becomes the difference, and the result follows the counters and the mode |
| `PingRound.PingTest.Finish` | ping_test.cpp:287-343 | the address goes, the socket is closed, one report is appended with counts, loss and statistics, and the data is cleared |
| `PingRound.PingTest.TimerCallback` | ping_test.cpp:11-23 | probe, or finish and delete the timer |
| `PingRound.PingTest.SocketTimeout` | ping_test.cpp:35-50 | finish, probe again, or nothing, and the event is gone |
| `PingRound.PingTest.SocketRead` | ping_test.cpp:51-72 | receive, process, and what the result calls for; the event is gone, and without an address so is the process |
| `PingRound.StepCounts` | ping_test.cpp:31-72 | each step keeps replies + timeouts + lost reads + pending = probes + carried over |
| `PingRound.BoundKeptExactly` | ping_test.cpp:36-46 | each step keeps at most `times` probes, except exactly the one where an unassigned return value reads as NOLAST |
| `PingRound.EventsAreConserved` | ping_test.cpp:170-225 | in every reachable state, overlapping rounds included: at most the configured number of probes, 4 by default, the conservation of events, and data <= replies <= probes when nothing was left over |
| `PingLaws.LossExactly` | ping_test.cpp:323 | the truncated floating expression is the whole percentage lost, and lies in 0..100 iff surplus replies are below one percent |
| `PingLaws.ReportIsSound` | ping_test.cpp:287-343 | a report comes only with all probes out, so its loss is defined, and lies in 0..100 when no event was left over; its statistics are those of the round-trip times of all replies accepted since the last report |
| `PingLaws.OverlappingRoundsLoseBelowZero` | ping_test.cpp:155-162 | a run of two overlapping rounds whose first and only report gives a loss of -100 |
| `PingLaws.LostExactly` | ping_test.cpp:207-225 | in every reachable state, overlapping rounds included, a step loses the process iff it handles a read after the latest round has reported |
| `PingLaws.CallbacksTerminate` | ping_test.cpp:31-72 | every chained callback decreases twice the unsent probes plus the pending events |
| `PingLaws.ChainedRound` | ping_test.cpp:104-128 | at most one event pending, at most one report, only with all probes out, the socket closed just then, and the process never lost; once nothing is pending it has reported iff every send worked and no reply was rejected |
| `PingLaws.TimerReports` | ping_test.cpp:11-23 | a timer round reports, and closes its one socket, when its timer ends, for an accepted reply after the last probe and before any report, and for every late timeout; it is lost iff its last event is a read after a report |
| `PingLaws.TwiceExactly` | ping_test.cpp:267-276 | without timeouts, a round whose timer has ended has reported twice iff an accepted reply came between its last probe and the end of its timer, else once |
| `PingLaws.HealthyTimerRoundReportsTwice` | ping_test.cpp:267-276 | when every event is a tick, a timeout or an accepted reply, a timer round with nothing left to wait for is lost or has reported at least twice |
| `PingCounts.CountsAreTold` | ping_test.cpp:84-128 | in every reachable state the settings are the configured ones or their defaults, and the probes sent, the probes tried and the packets received are counted from the events since the latest start: ticks ask for probes where there is an interval, else the start, timeouts and accepted replies |
| `PingCounts.OnlyTicksSend` | ping_test.cpp:42-66 | where there is an interval a reply or timeout takes its event away, and no probe, counter of probes or timer changes |
| `PingCounts.EventsComeAndGo` | ping_test.cpp:11-72 | a probe that leaves adds one read event, a reply or timeout takes its own, a round with an interval adds one timer, and the tick that finds all probes out takes its own |
| `PingCounts.SequenceNumbers` | ping_test.cpp:177 | the k-th probe tried in a round carries sequence number k modulo 65536, from 0 |
| `PingCounts.StatusTells` | ping_test.cpp:153-340 | the status after a step follows from whether it reported, probed, started or read |
| `AddrKey.KeyInjective` | worker.cpp:15-25 | printed keys are equal iff address and port are |
| `AddrKey.KeyFitsBuffer` | worker.cpp:21-23 | a key has 9 to 21 characters and fits its 23-byte buffer |
| `AddrKey.KeyExample` | worker.cpp:15-25 | 1.2.3.4 and the port bytes 0 and 80 are printed as 1.2.3.4:80 |
| `AddrKey.ErrorFindsItsProbe` | worker.cpp:41-79 | the key rebuilt from a port-unreachable error, quoting as little as the two ports, equals a registered key iff the quoted datagram went to that address and port |
| `AddrKey.OnlyPortErrorsCount` | worker.cpp:41-64 | only a port-unreachable error about a UDP datagram quoted as far as its ports gives a key at all |
| `UdpVerdict.UdpWorker.Run` | udp_test.cpp:50-79 | a socket is opened, with a positive timeout an event is registered under the printed address, and the probe leaves |
| `UdpVerdict.UdpWorker.Finish` | udp_test.cpp:147-189 | the current socket is closed and one verdict reported |
| `UdpVerdict.UdpWorker.SocketCallback` | udp_test.cpp:9-26 | unregister, report 1, delete the event |
| `UdpVerdict.UdpWorker.IcmpUnreachable` | worker.cpp:79-87 | report 0 and delete the event, leaving its index entry; a second error uses the deleted event |
| `UdpVerdict.StatusTells` | udp_test.cpp:100-151 | a test is initialised by init, probing after a run and done after either finish |
| `UdpRuns.StepInv` | udp_test.cpp:9-79 | runs, reads, timeouts, any errors and the passing of time keep the invariant of tests, events, sockets and reports while timeouts are shorter than periods |
| `UdpRuns.NotWaitingWhenRun` | udp_test.cpp:50-79 | a test never starts while its previous run waits |
| `UdpRuns.OneVerdictPerRun` | udp_test.cpp:147-189 | whatever errors arrive and targets coincide, each run of a test with a timeout is reported exactly once when it is over and not before, and no other run is |
| `UdpRuns.SocketsAccounted` | udp_test.cpp:147-174 | every socket made is open or was closed exactly once; a waiting test holds its own, and with timeouts everywhere no other is open |
| `UdpLaws.ErrorFindsOwn` | worker.cpp:79-87 | with targets apart, an error finds the live event of the test whose datagram it answers, or nothing |
| `UdpLaws.StepIndex` | worker.cpp:375-401 | with targets apart, every restrained step keeps the index sound and uses no deleted event |
| `UdpLaws.EveryStepSettles` | worker.cpp:64-87 | in every restrained run, each step is the step of a board that knows only pending tests: starts find no run pending, a read or timeout reports 1, an error reports 0 for the test it answers if that is pending and else does nothing |
| `UdpLaws.FaultsExactly` | worker.cpp:79-87 | in every such state an error uses a deleted event iff the latest run of a test of its target was reported unreachable |
| `UdpLimits.ReachTurn` | udp_test.cpp:50-79 | whatever the other tests are and when they are due, a restrained run leads to the next turn of a test with its waiting event untouched |
| `UdpLimits.SharedTargetsFaultExactly` | worker.cpp:79-87 | for any number of tests and any schedule: some restrained run uses a deleted event iff two tests share a target and one of them has a timeout |
| `UdpLimits.SharedTargetsBlameExactly` | worker.cpp:79-87 | in the same case and no other some restrained run reports an error against a test it did not answer |
| `UdpLimits.SharedTargetHidesError` | udp_test.cpp:19-22 | while two tests of one target wait, the outcome of one makes the error for the other go unnoticed |
| `UdpLimits.ClosesTwiceExactly` | udp_test.cpp:64-69 | for any number of tests, with or without restraint on errors: some run closes a socket twice iff the timeout of some test reaches its period |

## Left out

- Sockets, fork, libevent, hiredis and the HTTP server: messages, timers, packets, sends and clocks are choices of the environment; frame writes are complete; requests other than POST do nothing.
- JSON parsing: one unspecified function from a text to its optional `id` and `type`; a body is the text up to its first NUL.
- A worker that reads a text which runs past its 1000-byte field, and one that is given a null test, are both modelled as lost (`alive` is false).
- Test objects in `test_map`: the worker model keeps the text a test was built from. The id is taken from the configuration for both kinds of test, although `Ping_test::config` does not copy it.
- `Distribution.StepInv`: assumes that texts which are sent fit a frame, that those which become tests have known types, that no other worker is still to receive or acknowledge an added id, and that no live id was given to a worker before the distribution; `Requests` and `Incidents` show what happens otherwise. Descriptor 0, which a request for an unrouted id addresses, is assumed to be no worker's.
- `Master.Master.GetTestConf`: a file that cannot be opened, for which the loop does not end, and the copy of 256 bytes that may read past a short line.
- `PingStats.Summarise`: real arithmetic, the variance instead of its square root, and an accumulator that starts at zero although the variable is not initialised.
- `PingRound.PingTest.Finish`: the scaled integers sent for min, avg, max and mdev, the elapsed time and the log line; loss and statistics are left unspecified where the code divides by zero.
- `PingRound.PingTest.Process`: the value returned for an ICMP type other than echo reply is a parameter, since the function returns none.
- `PingLaws.LostExactly`: whether the event library still reports a read event on a socket that was closed is left open; the model lets it.
- `PingRound.PingTest.Start`: `init` is assumed to succeed, and sockets are numbered apart.
- `UdpVerdict.UdpWorker.Run`: the socket is assumed to open, and sockets are numbered apart so that closing one twice is visible; the datagram itself has no state.
- `UdpVerdict.UdpWorker.IcmpUnreachable`: what the program does after using a deleted event; the model records the use and goes on.
- Deleting a UDP test while a probe is pending.
- `REDISPORT` beyond being a message that leaves `test_map` unchanged, `get_server_conf` (a reader of key=value lines), log splitting and descriptor passing, process titles, `logger.cpp`, `configuration.cpp` and `test.cpp` (getters and setters), `main.cpp` (start-up), the Python scripts and the `_before` files.
