# Verification of the eavesdropping plug-ins

A Dafny model of the traffic-correlation plug-ins and of the analyzer that reads their trace,
with proofs of what they promise. `dafny verify dfyconfig.toml` checks everything.

- **The TCP relay** (`tropeaproxy/tproxy.c`; `autosys/autosys.c` is the same machine). `RelayModel`
  holds the values: a small kernel (open descriptors, epoll interest, bytes received and sent per
  descriptor), the table of partner records and one function per handler. `RelayMachine` is the
  program itself, with records shared by pointer and fields updated step by step, proved equal to
  those functions. `RelayInvariants`, `RelayStreams` and `RelayExamples` hold the laws, over any
  number of interleaved connections and over batches of events. `Subsequence` is the stream order.
- **The correlation analysis** (`tools/pynalyzer.py`). `Correlation` is the windowed scan with its
  early break, `Analysis` the pass over the log, `Ranking` the accumulation per server and the
  sorted candidates, `Tallies`, `Summary` and `Evaluation` the comparison with ground truth. `AnalysisLaws`,
  `Scores` and `RankingLaws` hold the laws. Floating-point numbers are `real`.
- **simpletcp**. `SocksClient` is the client automaton (sections 3, 4 and 6 of RFC 1928),
  `ServerTable` the server's accept-time table and its log.
- **The texts between them**. `TraceFormat` prints, logs and parses trace records; `GroundTruth`
  does the same for the servers' logs and builds the table of real connections.
- `Basics`, `RealFacts` and `SetSum` are shared helpers.

## Assumptions of the relay model

The environment supplies every answer of a system call as part of an event. An event reports a
non-empty subset of the bits registered for its descriptor when `epoll_wait` returned;
`BatchIsPossibleRun` shows that they are still registered when the event's turn comes. The kernel
never hands out a descriptor that is open (`KernelAnswers`), and `recv` fills at most 4096 bytes.

- *Fresh numbers* (`FreshAnswers`): `accept` and `socket` do not return a number that a remaining
  record still names as its partner. The code depends on it: `PairingKeptExactly` shows that an
  accept keeps the table paired exactly under this condition, `ReusedNumberCrosses` is a run in which
  one connection's byte is written to another.
- *Harmless events* (`Harmless`): no data is reported on a socket that still has a chunk to be
  written to it, and every send is complete. Only exact delivery needs this, and `ExactlyHarmless`
  proves that it needs exactly this. `FullDuplexStrands` and `ShortSendLoses` are the two failures.
- *Safe accepts* (`SafeAccepts`): no accept while some pair is half-closed. `RunSurvivesExactly` says
  precisely which runs stop (`Fatal`): by the "Null pointer in lookup (me)" exit, as in
  `AcceptWhileHalfClosedExits`, or by a double free. The latter needs no accept: a survivor that is
  readable and writable in one event whose `recv` fails (`FailsWhileWriting`, `FailedReadFreesTwice`)
  has its buffer freed by both halves. What C does then is undefined; the model stops there.
- *Waiting survivors* (`SurvivorsWait`): the endpoint left over when its partner closes is closed by its
  next write event. `SurvivorsWaitExactly` says which events (`Strands`) take the registration for
  that event away, `ForgottenForever` that a survivor watched for nothing is never closed.

## Where the code and its documentation differ

The model follows the code.

- The project report divides a score by the *average* gap plus one
  (`Documentation/report/core/analisys.tex:226-230`); the code divides by the *total* gap plus one
  (`CodeAgainstReport` compares the two).
- The docstring of `getAllServers` speaks of sorting by `avg`; the code sorts by `score`.
- The gap delta of the report is best minus successor; `dgap` is successor minus best.
- The README of tropeaproxy says that all TCP packets are forwarded; the exact condition is `Harmless`.

## Model

| member | source | states |
|---|---|---|
| RelayMachine.TProxy.SetEPOLL | tropeaproxy/tproxy.c:48-56 | ADD with MOD as fallback sets the mask of an open descriptor and silently does nothing on a closed one |
| RelayMachine.TProxy.CloseEndpoint | tropeaproxy/tproxy.c:301-325 | leaves epoll, closes, drops the table entry and sets isDone, and frees the record's buffer if its count is not zero; a second call on such a record frees it twice |
| RelayMachine.TProxy.NewConnection | tropeaproxy/tproxy.c:331-397 | resets isDone; a failed connect closes both descriptors and leaves table and interest alone, a good one files two empty records naming each other and watches both for input |
| RelayMachine.TProxy.ReadFrom | tropeaproxy/tproxy.c:405-441 | the bytes read replace the record's chunk, the peer is watched for both directions, the reader for none; end of file and errors ask for closing |
| RelayMachine.TProxy.WriteTo | tropeaproxy/tproxy.c:447-470 | at most a prefix of the chunk is sent, the chunk is dropped whatever the count, both ends are watched for input |
| RelayMachine.TProxy.ActivateIn | tropeaproxy/tproxy.c:486-502 | the readable half of an event, on shared records |
| RelayMachine.TProxy.ActivateOut | tropeaproxy/tproxy.c:504-524 | the writable half, with the record looked up before the readable half ran: write, close, exit, or the double free after a failed read in the same event |
| RelayMachine.TProxy.ActivateTProxy | tropeaproxy/tproxy.c:472-526 | the dispatch, including the four ways to stop: either failed lookup, a null record, a buffer freed twice |
| RelayMachine.TProxy.Ready | tropeaproxy/tproxy.c:528-551 | a whole batch equals the run of its events, and a relay in good order with a well-formed batch is in good order afterwards |
| RelayInvariants.ActivateInv | tropeaproxy/tproxy.c:331-526 | any possible event keeps pairing (a fixed-point-free involution on live pairs) and the three interest states of a live pair, with an unfreed chunk of 1 to 4096 bytes wherever a write is awaited |
| RelayInvariants.RunInv | tropeaproxy/tproxy.c:528-551 | the same over every run |
| RelayInvariants.AcceptOutcome | tropeaproxy/tproxy.c:344-396 | after any accept isDone is reset; a refused one leaves table, open descriptors and interest as they were, a good one adds exactly its two descriptors, filed under each other with no chunk and watched for input |
| RelayInvariants.RunAccounted | tropeaproxy/tproxy.c:301-526 | over every run the open descriptors are the listener and the filed ones, and a record holds a buffer exactly while its count is not zero |
| RelayInvariants.RunNeverLosesPartner | tropeaproxy/tproxy.c:474-482 | from start-up the "Null pointer in lookup (partner)" exit and a null record are unreachable in every run; a run can stop only by the lookup of the peer or by a double free |
| RelayInvariants.MeExitExactly | tropeaproxy/tproxy.c:504-516 | the other exit is taken exactly on write readiness of a half-closed endpoint after isDone was reset, unless its own end of file came with it |
| RelayInvariants.DoubleFreeExactly | tropeaproxy/tproxy.c:316-321 | a buffer is freed twice exactly when a half-closed endpoint is readable and writable in one event and its recv fails |
| RelayInvariants.RunSurvivesExactly | tropeaproxy/tproxy.c:493-516 | a run survives if and only if none of its events meets one of those two guards |
| RelayInvariants.SafeHalfClose | tropeaproxy/tproxy.c:344-348 | without an accept in a half-closed state, half-closed implies isDone, the exit is not reached, and the run survives unless a survivor's recv fails while it is writable |
| RelayInvariants.SurvivorIsClosed | tropeaproxy/tproxy.c:507-512 | the write event of a surviving endpoint closes it and changes no other entry; the process goes on unless the same event brought a failed recv |
| RelayInvariants.SurvivorsWaitExactly | tropeaproxy/tproxy.c:416-417 | one event leaves every survivor registered for its write event if and only if it is neither an end of file or error together with a write on a live pair, nor data without write readiness on a survivor |
| RelayInvariants.RunSurvivorsWaitExactly | tropeaproxy/tproxy.c:405-467 | the same for all event boundaries of a run |
| RelayInvariants.ForgottenForever | tropeaproxy/tproxy.c:417 | a survivor registered for nothing stays open and in the table whatever follows |
| RelayInvariants.WriteFindsChunk | tropeaproxy/tproxy.c:447-463 | every send on a live pair finds an unfreed chunk of 1 to 4096 bytes, even after a read in the same event |
| RelayInvariants.OtherStaysEnabled | tropeaproxy/tproxy.c:416-417 | handling one event never takes back a bit reported for another descriptor |
| RelayInvariants.BatchIsPossibleRun | tropeaproxy/tproxy.c:532-550 | masks collected once per batch are all still registered when handled |
| RelayInvariants.PairingKeptExactly | tropeaproxy/tproxy.c:350-386 | an accept keeps the invariant if and only if no remaining record names a new number |
| RelayStreams.ActivateIsolated | tropeaproxy/tproxy.c:405-526 | one event keeps every sent stream a subsequence of what the own partner delivered, pending chunk included |
| RelayStreams.RunIsolated | tropeaproxy/tproxy.c:528-551 | the same over every run, with full-duplex events and partial sends |
| RelayStreams.SentBytesTraceBack | tropeaproxy/tproxy.c:447-459 | each byte sent has its own, strictly increasing position in the partner's stream |
| RelayStreams.EventMoves | tropeaproxy/tproxy.c:405-470 | one event appends to the received stream exactly the bytes of recv and files them as the chunk; it appends to the sent stream exactly the first bytes of the pending chunk that send took, none on a closed socket, and frees the chunk; all other streams stay |
| RelayStreams.RunHears | tropeaproxy/tproxy.c:413-416 | over a run each received stream is the concatenation of what the events delivered on that number since it was handed out |
| RelayStreams.ExactlyHarmless | tropeaproxy/tproxy.c:405-470 | one event keeps received = sent + pending (with the writer registered) on all live pairs if and only if it is harmless |
| RelayStreams.RunExactly | tropeaproxy/tproxy.c:405-526 | a run is exact at every event boundary if and only if all its events are harmless |
| RelayStreams.EofDelivered | tropeaproxy/tproxy.c:419-421 | when an end of file is handled, the live partner has already been sent everything received |
| RelayStreams.QuietPairDelivered | tropeaproxy/tproxy.c:465-467 | a pair that waits only for input has delivered everything both ways |
| RelayStreams.RelayTheorem | tropeaproxy/tproxy.c:528-551 | from start-up, over every run: the invariant, accounting, isolation, what was received, when it survives, when it is exact and when all survivors wait, each of the three as an if-and-only-if |
| RelayExamples.FullDuplexStrands | tropeaproxy/tproxy.c:465-467 | a read and write event in one strands the chunk just read |
| RelayExamples.ShortSendLoses | tropeaproxy/tproxy.c:450-459 | a send that accepts nothing loses the chunk |
| RelayExamples.AcceptWhileHalfClosedExits | tropeaproxy/tproxy.c:344-348 | four events that reach the exit |
| RelayExamples.FailedReadFreesTwice | tropeaproxy/tproxy.c:504-512 | three events after which one buffer has been freed twice |
| RelayExamples.DataForgetsSurvivor | tropeaproxy/tproxy.c:416-417 | data on a survivor leaves it watched for nothing |
| RelayExamples.HangupWhileWritingDemotesSurvivor | tropeaproxy/tproxy.c:465-467 | end of file with a write leaves the survivor watched for input only |
| RelayExamples.ReusedNumberCrosses | tropeaproxy/tproxy.c:350-386 | a reused number sends one connection's byte to another |
| TraceFormat.TimestampValue | tropeaproxy/tproxy.c:286-287 | the printed timestamp reads back as sec * 1000000 + usec |
| TraceFormat.TimestampOrder | tropeaproxy/tproxy.c:286-287 | the printed number preserves the order of clock readings and is injective |
| TraceFormat.SpelledIsParsed | tools/pynalyzer.py:212 | white space, at most one sign, digits, white space is read as that number |
| TraceFormat.ParsedIsSpelled | tools/pynalyzer.py:212 | nothing else is read as a number |
| TraceFormat.SplitJoin | tools/pynalyzer.py:204 | the fields of a text contain no separator and join to the text |
| TraceFormat.JoinSplit | tools/pynalyzer.py:204 | any fields without the separator are what their join splits into |
| TraceFormat.LastLine | tools/pynalyzer.py:255 | a last line without a newline is a line |
| TraceFormat.ConnectionParamsExactly | tools/pynalyzer.py:200-214 | a line is read as an entry exactly if it has three or more fields, side, hostname and a number as the first three, with any first field but c a server |
| TraceFormat.RecordRoundTrip | tools/pynalyzer.py:200-214 | parsing a printed package gives side, hostname and time back |
| TraceFormat.PackageFits | tropeaproxy/tproxy.c:273-289 | every package is between 1 byte and one page long, so the logger appends it whole |
| TraceFormat.LoggerServer.Activate | loggerserver/loggerserver.c:194-220 | one event appends its datagram, cut after 4096 bytes; events that are not readable and failed receives append nothing |
| TraceFormat.LoggerServer.Ready | loggerserver/loggerserver.c:222-245 | a batch appends its datagrams in order |
| TraceFormat.PipelineRoundTrip | loggerserver/loggerserver.c:199-218 | any list of records, printed, logged among spurious and failed events, split into lines and parsed, is the same list |
| Correlation.CalcProbMeaning | tools/pynalyzer.py:173-198 | a line counts exactly strictly inside the window, with probability in (0,1), for all thresholds and without division by zero |
| Correlation.LaterIsLessLikely | tools/pynalyzer.py:188-190 | inside the window the probability falls with time |
| Correlation.AnalyzeForward | tools/pynalyzer.py:216-241 | the loop with break returns the first hits up to the break; the sanity break is never taken |
| Correlation.ScanFinds | tools/pynalyzer.py:224-239 | on any log a server is found exactly when its first in-window line precedes the first line beyond the window, with that line's values |
| Correlation.BreakIsHarmlessExactly | tools/pynalyzer.py:226-228 | the early break loses no server if and only if that holds of every server |
| Correlation.PynalyzerFinds | tools/pynalyzer.py:173-241 | for all thresholds, on any log that parses: a server is found exactly if it has a line with time1 <= time2 and MIN < distance < MAX that comes before any line later than time1 + MAX, and the first such line gives the time and (MAX - distance) / (MAX - MIN) |
| Correlation.PynalyzerFindsSorted | tools/pynalyzer.py:173-241 | on a sorted log: exactly if it has any such line, with the largest of these probabilities and the earliest time |
| Correlation.SortedScan | tools/pynalyzer.py:216-241 | on a sorted log exactly the servers with an in-window line are found, each with maximal probability and earliest time |
| Analysis.Analyze | tools/pynalyzer.py:243-272 | the pass fails exactly on a log with a line that does not parse, and otherwise has one entry per client with one record per client line |
| AnalysisLaws.PynalyzerRecords | tools/pynalyzer.py:259-271 | for all thresholds a client's records are one per line of it, in order, with the line's time and exactly what PynalyzerFinds says of the lines after the first line with the same text |
| AnalysisLaws.OtherClientsInvisible | tools/pynalyzer.py:224-241 | on a sorted log deleting all lines of other clients changes nothing for a client, for all thresholds |
| AnalysisLaws.FirstIndexHarmless | tools/pynalyzer.py:259-270 | looking lines up by text equals looking them up by position on sorted logs with duplicates, when distance zero is ignored |
| AnalysisLaws.FirstIndexHarmlessExactly | tools/pynalyzer.py:268-269 | it is harmless on all sorted logs if and only if THRESHOLD_MIN >= 0 or THRESHOLD_MAX <= 0 |
| AnalysisLaws.ClientLinesConserved | tools/pynalyzer.py:259-271 | the lengths of all clients' lists sum to the number of client lines |
| AnalysisLaws.DeliveredTraceIsSorted | tools/pynalyzer.py:252-262 | a trace delivered in clock order yields a log that parses and is sorted |
| Scores.ScoreBounds | tools/pynalyzer.py:147-157 | 0 < avg <= score <= sum < nconns, and score equals the sum exactly for constant probabilities |
| Scores.AverageTimesCount | tools/pynalyzer.py:153 | nconns * avg is the sum |
| Scores.ScoreTimesGap | tools/pynalyzer.py:157 | score * (total gap + 1) is the sum |
| Scores.TotalConcat | tools/pynalyzer.py:140 | the sum of parts is the sum of their sums, and the sum of one number is that number |
| Scores.GapCoversSpread | tools/pynalyzer.py:141-154 | nconns * gap is at least the spread of the probabilities, with equality exactly on monotone sequences |
| Scores.CodeAgainstReport | tools/pynalyzer.py:150-157 | the code's score is at most the report's, with equality exactly for one record or constant probabilities |
| Ranking.SummarizeServers | tools/pynalyzer.py:123-143 | in any dictionary order the accumulated entry of a server is sum, total variation and data of its own history |
| Ranking.SortedByScore | tools/pynalyzer.py:162-163 | every server exactly once, by descending score |
| Ranking.GetAllServers | tools/pynalyzer.py:110-171 | exactly the servers seen, each once with the statistics of its history, by descending score; dgap and dscore on the first of two or more only |
| Ranking.CandidateRankings | tools/pynalyzer.py:80-108 | one such ranking per client |
| RankingLaws.HistoryByPosition | tools/pynalyzer.py:123-143 | a server's history has one item for each record that lists it, in order, with the record's time and the time and probability stored there |
| RankingLaws.CandidateBounds | tools/pynalyzer.py:147-157 | for every ranked candidate the score bounds hold, and nconns, avg, gap and score are determined by number, sum and total variation of its history |
| RankingLaws.LogRecordsAreProper | tools/pynalyzer.py:188-190 | every probability recorded from any log lies in (0,1) |
| RankingLaws.WinnerLeads | tools/pynalyzer.py:166-170 | dgap is successor minus best, dscore best minus successor; dscore is never negative and belongs to the best candidate only |
| RankingLaws.NconnsConserved | tools/pynalyzer.py:123-149 | the nconns of a ranking sum to the candidates of all the client's records |
| GroundTruth.TableMeaning | tools/pynalyzer.py:279-291 | after any history a client maps to exactly its latest server, with its longest trailing run there |
| GroundTruth.NothingDroppedExactly | tools/pynalyzer.py:282-287 | nothing of a client is dropped if and only if all its records are under one server |
| GroundTruth.RealConnections.Note | tools/pynalyzer.py:282-287 | the append or its exception handler keeps the table equal to that of the history |
| GroundTruth.RealConnections.UpdateRealConnections | tools/pynalyzer.py:274-291 | a file is read line by line; it fails exactly on a line without two fields |
| GroundTruth.SplitServerLineExactly | tools/pynalyzer.py:280 | a line is read as client and stamp exactly if it is the two without a semicolon, joined by one, and one more character |
| GroundTruth.FileRecordsMeaning | tools/pynalyzer.py:279-289 | one record per line, in order, under the name of the file |
| GroundTruth.ServerLogRoundTrip | simpletcp/simpletcp.c:387-397 | a server's log reads back as the connections it logged |
| Summary.TruthIsWellDefined | tools/pynalyzer.py:354-372 | candidates[0] of the ground truth exists and counts the last run of the client's latest server |
| Summary.Accuracy | tools/pynalyzer.py:362-382 | maccuracy is -1 unless both sides have a winner and it is the same server, and then max * maccuracy is min of the two counts; it is in (0,1], and 1 exactly when the counts agree |
| Tallies.CompareClients | tools/pynalyzer.py:362-387 | in any order of the clients the counters are the numbers of unknown and of matched clients and the sum of the accuracies |
| Summary.AccuracySummary | tools/pynalyzer.py:349-398 | missing, matched and mean accuracy as counts and sums over the clients |
| Summary.ReportBounds | tools/pynalyzer.py:362-398 | matched + missing <= clients, accuracies are -1 or in (0,1], mean and portion are in (0,1] with a match |
| Evaluation.RealConnectionsParser | tools/pynalyzer.py:294-300 | only files named server* count, in order; a malformed one fails the whole |
| Evaluation.TruthOfFile | tools/pynalyzer.py:298-299 | a file contributes exactly the records of its lines under its own name if the name starts with server, and nothing otherwise |
| Evaluation.TruthOfFiles | tools/pynalyzer.py:295-300 | files contribute in order, and one malformed file fails them all |
| Evaluation.Evaluate | tools/pynalyzer.py:307-401 | from input files to report: fails exactly on malformed input; otherwise each client with a client line has an accuracy that compares the winner of a ranking of its own records, told from the two thresholds and the log, with its true server; missing, matched and clients are exact counts, the mean is the sum of the matched accuracies over their number and the portion their share of the clients (both 0 without a match), and all are in range |
| SocksClient.PacketsAreUnderstood | simpletcp/simpletcp.c:408-460 | a reader of RFC 1928 gets from greeting and request: no authentication offered, connect, the configured IPv4 address and port |
| SocksClient.NegotiationReplies | simpletcp/simpletcp.c:424-436 | for every length of read: accepted exactly when shorter than two bytes (end of file included) or with a second byte other than 0xff; which of these do not grant the method offered |
| SocksClient.RequestReplies | simpletcp/simpletcp.c:469-482 | for every length of read: accepted exactly with at least two bytes and a second byte of zero; which of these do not grant the request |
| SocksClient.SimpleTCPClient.WriteEvent | simpletcp/simpletcp.c:530-562 | the write handler performs the transition: a greeting or request that reads as configured, or the hostname, and input awaited; or the exit |
| SocksClient.SimpleTCPClient.ReadEvent | simpletcp/simpletcp.c:564-635 | the read handler performs the transition: a verdict and output awaited; or the socket closed, with the end, another sleep, or the division by zero of equal sleep bounds |
| SocksClient.SimpleTCPClient.ActivateClient | simpletcp/simpletcp.c:703-730 | the dispatch, keeping the automaton invariant and the script |
| SocksClient.StepKeepsAutomaton | simpletcp/simpletcp.c:556-598 | output is watched exactly in INIT, the OK and the FAIL states, input exactly in the REQ states and DONE |
| SocksClient.ExitExactly | simpletcp/simpletcp.c:608-634 | the reader's default and the writer's DONE entry are unreachable; the process exits exactly on the write event after a rejected reply, and divides by zero exactly on the read that ends a connection with another to come and equal sleep bounds other than zero |
| SocksClient.MeasureFalls | simpletcp/simpletcp.c:14-23 | every event lowers (nconn, status, socket) lexicographically or ends the process |
| SocksClient.StuckExactly | simpletcp/simpletcp.c:608-626 | the client waits for some event exactly until it is done, has exited or has divided by zero |
| SocksClient.WholeRun | simpletcp/simpletcp.c:530-635 | with all replies accepted the trace is a prefix of max(1, nconn) sessions, and a run that cannot go on has performed all of them in six steps each and is done; with a zero divisor and nconn > 1 it has performed one and stops |
| SocksClient.WholeRunIsUnderstood | simpletcp/simpletcp.c:530-635 | what such a run writes on each of its connections is read by a proxy as greeting, request for the configured destination, and the hostname and nothing more |
| SocksClient.HostnameAfterBothReplies | simpletcp/simpletcp.c:544-547 | on any run the hostname of a connection follows a negotiation and a request that the code accepted |
| ServerTable.SimpleTCPServer.LogServerConnection | simpletcp/simpletcp.c:375-399 | one line with the client and the table's time is appended, or the process exits with the log as it was |
| ServerTable.SimpleTCPServer.ReadEvent | simpletcp/simpletcp.c:637-672 | data is logged and output awaited with all else unchanged, end of file removes the connection everywhere and logs nothing, an error counts as data because the count is unsigned |
| ServerTable.SimpleTCPServer.ActivateServer | simpletcp/simpletcp.c:732-778 | the dispatch, keeping table, log and history in agreement |
| ServerTable.CString | simpletcp/simpletcp.c:387-388 | the longest prefix without a zero byte |
| ServerTable.Logged | simpletcp/simpletcp.c:646-656 | a text without a zero byte is logged whole, an error as an empty name, end of file not at all |
| ServerTable.TableAgrees | simpletcp/simpletcp.c:637-778 | on every run with descriptor reuse the open, watched and tabled descriptors are those the history leaves, each waiting for what its last event makes it wait for, with the time of its latest accept; the lookup never fails, and the log is the one prescribed by the history |
| ServerTable.OtherStaysPossible | simpletcp/simpletcp.c:792-801 | events reported for other connections stay valid through a batch |
| ServerTable.RequestsAreGroundTruth | simpletcp/simpletcp.c:646-654 | from clients that send clean names the analyzer reads back exactly the names sent, in order, each with the time of its own accept |
| ServerTable.LogIsGroundTruth | simpletcp/simpletcp.c:387-398 | the analyzer reads the server's log back as exactly the connections served |

## Left out

- Real sockets, epoll, DNS, file I/O, message logging and the clock: answers of the environment, or ghost histories.
- The order of trace datagrams on the network: UDP does not promise it, so sortedness is a hypothesis and DeliveredTraceIsSorted says when it holds.
- The sending of a trace record per accepted connection (`udpTrace`): only the text of the record is modelled.
- Allocator failures and leaks: a buffer is absent, held or freed, and what a process does after a double free is not modelled.
- A failing `accept` in the relay, EPOLLERR and EPOLLHUP, signals, and failing writes or connects of the client.
- The byte order of an `int` port field: the two bytes copied from it are taken to be the port.
- Hostnames of 256 and more characters, and server messages without a terminating zero.
- Option parsing, the length of the random sleep (its zero divisor is modelled), and the plug-in and main-loop wrappers.
- autosys/autosys.c and analyzer/analyzer.c: the same machines as the relay and the logger.
- Floating-point rounding: `real` arithmetic throughout; `met_clients` is computed but, as in the code, never used.
- printPretty, the network builder, the shell scripts, XML, LaTeX and graphics.
- Ranking.SortedByScore: stability among equal scores is not stated, because the order of dictionary items is not specified either.
- GroundTruth.RealConnections.UpdateRealConnections: on a malformed line the records read before it remain, but which ones is not stated, because the program stops there.
