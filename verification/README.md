# Verified models of the repository's protocols, codecs and firmware

Each module models one part of the repository on which something non-trivial rests, and proves what
it is for. Where a part changes state, the model is a class or a method with the same fields, loops and
branches, proved against a specification function; what the part promises is then proved about
that function for all inputs, runs or interleavings.

| module | models |
|---|---|
| `Podscribe`, `PodscribeRuns`, `PodscribePipeline`, `PodscribeOrchestrator` | the resumable transcription pipeline: what every sequence of runs keeps, what each stage does to a file, and why two concurrent thread pools end where the sequential order ends |
| `StreamScan`, `PemScan`, `PemBase64` | searching a stream for PEM blocks with a growing chunk that is cut behind the last match |
| `UdpRelay`, `UdpMux` | the lossy, shuffling UDP relay: one direction of a worker, and the table of workers |
| `DhcpRoutes`, `DhcpTools` | the classless static route option in Go and in Python (RFC 3442, section "Classless Route Option Format") |
| `PowerLog` | the sample line printed by C firmware and parsed by a Go client |
| `KeySet`, `KeyManager` | the authorized_keys manager |
| `DockerPolicy`, `DockerRequests`, `DockerEvaluator`, `DockerLoader` | the Docker API policy: evaluation of rulesets, from the request to the decision, and their loader |
| `Readers` | the `>From ` line skipper and the reader that can be peeked at |
| `Ornament`, `OrnamentPwm` | the LED ornament: pattern automaton, interpolation and software PWM |
| `Ptrace` | the wait loop of the system call tracer |
| `SshScan` | the shared progress counter of the scanner's workers |
| `Binomials` | the fallbacks for combinations and permutations |
| `Options`, `Strings`, `Arithmetic`, `Datagrams` | what the others share |

External calls, random numbers, file contents and the order of thread switches are parameters or
nondeterministic choices, so each theorem holds for all of them. Regular expressions other than the
PEM pattern, JSON, YAML, URL, address and key parsing, hashes and fingerprints are arbitrary functions.

## Where the code and its promises part

Each of these is a theorem below, with the exact condition or at an input.

- Podscribe, `ChangedFileKeepsOldTranscript`: a changed audio file is completed from its current contents exactly when no raw transcript of its old ones is left on disk; one that is left is used for the new hash.
- Podscribe, `InterruptionIsSafe`, `KilledPreparationIsSafe`, `InterruptionHappens`: the README promises resuming without repeated calls; a run killed between the transcriber's answer and the state update repeats the call, and a run killed at any other step of a preparation, a transcription or a post-processing does not.
- Podscribe, `TranscribedAtMostOnce`, `LostSaveRepeatsTranscription`, `CutTranscriptIsCompleted`: a transcript that cannot be written is transcribed again; one that is written in part is taken for the whole.
- Power logger, `GoodSampleRoundTrip`, `CutLinePanics`: sample ids from 2^31 on are printed unsigned and parsed signed, and rejected; `ParseRecords` panics on a line with an even number of good pieces.
- DHCP, `OptionRoundTrip`: `decodeDHCPOption` refuses the empty option that `buildOpt` makes of networks without a gateway.
- DHCP, `NetworksLost`, `LosingCommandLines`: the builder loses networks exactly when the command line ends in one.
- DHCP, `LongPrefix`: the Go decoder takes prefixes over 32, on which the Python decoder stops, and shows them as /0.
- Mailbox reader, `ReadsAreIndependentOfSizes`, `EmptyBufferAtTheEnd`: a last read with an empty buffer, which io.Reader allows, loses the final line end.
- PEM scanner, `FoundIffNotHidden`, `SharedDashesHideABlock`: a block that shares its first dashes with the end of one that is found is not reported.
- Ornament, `DefaultMaximumOverruns`: the default maximum brightness, which the Makefile does not override for main.c, is one more than the last index of the gamma table. The proofs about brightness hold for every maximum up to 127.
- Docker policy, `ContainerComplement`, `MountSlipsThrough`, `ReferenceRuleDeniesPrivilegedOnly`: only deny rules look at `Mounts`, and a deny rule about privilege looks at none of its lists, so that rule 1 of the reference ruleset, as the only rule, lets unprivileged containers mount anything.
- Tracer, `ErrnoOffByOne`, `ReusedPid`, `ReusedPidHappens`: the largest error number is one too many, and exits do not clear pending calls.

## Model

| member | source | states |
|---|---|---|
| `Podscribe.LifeKeepsSound` | AI/podscribe/src/podscribe/orchestrator.py:211-429 | Over any order of preparing, transcribing and post-processing tasks of any stages, with failing calls, failing or broken-off writes of transcripts, hash changes and lost state files, a raw transcript on disk means the file is not waiting for transcription, completed files have both transcripts, a raw transcript is never replaced, and the transcriber has answered once for it and once for each answer that could not be written |
| `Podscribe.TranscribedAtMostOnce` | AI/podscribe/README.md:12 | Resuming does not repeat transcription calls: over any such life the transcriber succeeds once for the raw transcript and once for each answer that could not be written, which settles after the fact whether that was at most once; it is known beforehand to be at most once when no write of a raw transcript fails outright |
| `Podscribe.LostSaveRepeatsTranscription` | AI/podscribe/src/podscribe/orchestrator.py:219-221 | The failing input: if the write of a new file's transcript fails, the next successful run calls the transcriber a second time |
| `Podscribe.CutTranscriptIsCompleted` | AI/podscribe/src/podscribe/orchestrator.py:220-221 | If that write breaks off, the next successful run completes the file from the part left on disk, and never transcribes it again |
| `Podscribe.PrepareKeepsSound` | AI/podscribe/src/podscribe/orchestrator.py:254-339 | The preparation task keeps that invariant and every raw transcript, on each of its branches |
| `Podscribe.PrepareStepsEnd` | AI/podscribe/src/podscribe/orchestrator.py:254-339 | The preparation step by step (reset, probe, promotion, preprocessor call, update) ends where the task ends |
| `Podscribe.PrepareStepsAreSound` | AI/podscribe/src/podscribe/orchestrator.py:254-339 | Killed behind any of its steps, the preparation leaves a sound record with the raw transcript it had |
| `Podscribe.KilledPreparationIsSafe` | AI/podscribe/src/podscribe/orchestrator.py:254-339 | So a run killed within a preparation makes no later life keep a second answer of the transcriber |
| `Podscribe.TranscribeKeepsSound` | AI/podscribe/src/podscribe/orchestrator.py:341-375 | So does the transcription task; an existing raw transcript is used, not replaced |
| `Podscribe.PostKeepsSound` | AI/podscribe/src/podscribe/orchestrator.py:377-429 | So does the post-processing task |
| `Podscribe.RunIsLife` | AI/podscribe/src/podscribe/orchestrator.py:431-545 | A whole run of any stage is such a sequence of tasks, so that the invariant reaches every run |
| `Podscribe.RunKeepsSound` | AI/podscribe/src/podscribe/orchestrator.py:431-545 | A whole run keeps the invariant and the raw transcript |
| `Podscribe.CompletedIsLeftOnlyByHashChange` | AI/podscribe/src/podscribe/orchestrator.py:263-285 | A run leaves a completed file untouched, without a single call, if and only if its hash is unreadable or unchanged |
| `Podscribe.SuccessfulRunCompletes` | AI/podscribe/src/podscribe/orchestrator.py:431-545 | A run of stage all in which everything succeeds completes the file from whatever sound state: from its raw transcript if it has one, without a transcription call, and otherwise from this run's one transcription |
| `Podscribe.ChangedFileKeepsOldTranscript` | AI/podscribe/src/podscribe/orchestrator.py:279-308 | A changed file is completed under its new hash from its current contents exactly when no raw transcript of older contents is on disk |
| `PodscribeRuns.PostprocessRun` | AI/podscribe/src/podscribe/orchestrator.py:271-272 | Stage postprocess leaves alone exactly the completed and unchanged files; any other without a raw transcript fails without a call, and any other with one is post-processed with one call whatever its status: completed with the answer, or failed, by how that call and the write end |
| `PodscribeRuns.TranscribeRun` | AI/podscribe/src/podscribe/orchestrator.py:265-339 | Stage transcribe leaves alone exactly the unchanged files that are transcribed or completed; any other is prepared, and the transcriber is asked exactly when there is no raw transcript |
| `PodscribeRuns.AllRun` | AI/podscribe/src/podscribe/orchestrator.py:265-429 | Stage all leaves alone exactly the completed and unchanged files, and ends every other file as the answers of the outside decide |
| `PodscribeRuns.NoCalls` | AI/podscribe/src/podscribe/orchestrator.py:265-277 | For each stage, a run makes no call for a file if and only if its hash cannot be read, or it is unchanged and of a status the stage has nothing to do for, or there is nothing to post-process |
| `PodscribeRuns.PostprocessCompletes` | AI/podscribe/src/podscribe/orchestrator.py:377-429 | When everything succeeds, stage postprocess completes every file with a raw transcript under its hash, with the final transcript of that raw one, and fails every file without one unless there is nothing to do |
| `PodscribeRuns.TranscribeTranscribes` | AI/podscribe/src/podscribe/orchestrator.py:341-375 | When everything succeeds, stage transcribe leaves every file with a raw transcript, transcribed or completed as it was, with one transcriber call exactly for a file that had none |
| `PodscribeRuns.UnreadableRun` | AI/podscribe/src/podscribe/orchestrator.py:260 | A file whose hash cannot be read is left alone by every stage |
| `PodscribePipeline.JobIsLaterTasks` | AI/podscribe/src/podscribe/orchestrator.py:341-429 | A job run alone through its small steps does to its record exactly what the two tasks do |
| `PodscribePipeline.Confluence` | AI/podscribe/src/podscribe/orchestrator.py:507-545 | Every finished interleaving of the two pools, whatever their sizes, leaves each file as the sequential order does and has submitted each post-processing task exactly once, in stage all, and never otherwise |
| `PodscribePipeline.NextIsOnCourse` | AI/podscribe/src/podscribe/orchestrator.py:507-545 | The invariant behind it: after any step, finishing any job sequentially still gives its sequential result, and a post-processing task is submitted exactly when its file's transcription is over |
| `PodscribePipeline.SomeJobIsEnabled` | AI/podscribe/src/podscribe/orchestrator.py:483-524 | While a job is unfinished and both pools have a worker, some job can move: the pools cannot deadlock |
| `PodscribePipeline.TotalRankDecreases` | AI/podscribe/src/podscribe/orchestrator.py:483-545 | Every step brings the jobs closer to the end, so every schedule finishes |
| `PodscribePipeline.InterruptionIsSafe` | AI/podscribe/src/podscribe/orchestrator.py:350-375 | For every schedule of every run on prepared files, stopped anywhere: a file's record is sound if and only if no answer of the transcriber is in flight for it (answered, but not both on disk and in the state); and exactly then every later life keeps at most one answer |
| `PodscribePipeline.InterruptionRepeatsTranscription` | AI/podscribe/src/podscribe/orchestrator.py:350-375 | If an answer is in flight, the next successful transcribing run calls the transcriber once more |
| `PodscribePipeline.InterruptionHappens` | AI/podscribe/src/podscribe/orchestrator.py:350-358 | Such a run exists: a run over one new file, killed after two steps, leaves an answer in flight, and the next run transcribes the file a second time |
| `PodscribePipeline.ScheduleKeepsOrder` | AI/podscribe/src/podscribe/orchestrator.py:507-545 | What holds at each step of each job holds throughout every schedule of the pools |
| `PodscribePipeline.AdvanceKeepsOrder` | AI/podscribe/src/podscribe/orchestrator.py:341-429 | What holds at each step of a job is kept by the next step |
| `PodscribePipeline.PoolsNeverOverrun` | AI/podscribe/src/podscribe/orchestrator.py:507-545 | Throughout every schedule no more transcriptions and post-processings run at a time than their pools have workers |
| `PodscribeOrchestrator.Orchestrator.LoadExistingTranscript` | AI/podscribe/src/podscribe/orchestrator.py:232-252 | Promotes the status of a file with a raw transcript, and touches no other file |
| `PodscribeOrchestrator.Orchestrator.PrepareAndPreprocessFile` | AI/podscribe/src/podscribe/orchestrator.py:254-339 | Does to the state what the preparation function says, and touches no other file |
| `PodscribeOrchestrator.Orchestrator.RunTranscriptionForFile` | AI/podscribe/src/podscribe/orchestrator.py:341-375 | Does to the state and the disk what the transcription function says, and touches no other file |
| `PodscribeOrchestrator.Orchestrator.SaveRawTranscript` | AI/podscribe/src/podscribe/orchestrator.py:211-230 | Writes and records a raw transcript; a failed write marks the file as failed, with whatever the write left on disk |
| `PodscribeOrchestrator.Orchestrator.RunPostprocessingForFile` | AI/podscribe/src/podscribe/orchestrator.py:377-429 | Does what the post-processing function says, and touches no other file |
| `PodscribeOrchestrator.Orchestrator.SaveFinalTranscript` | AI/podscribe/src/podscribe/orchestrator.py:408-421 | The same for a final transcript |
| `PodscribeOrchestrator.Orchestrator.AdvanceThread` | AI/podscribe/src/podscribe/orchestrator.py:341-429 | One small step of a thread, on the shared maps, is one small step of its job |
| `PodscribeOrchestrator.Orchestrator.RunPools` | AI/podscribe/src/podscribe/orchestrator.py:507-545 | With a scheduler free to pick any thread that a pool lets run, it terminates with the sequential result for each prepared file and one submission each |
| `PodscribeOrchestrator.Orchestrator.PrepareAll` | AI/podscribe/src/podscribe/orchestrator.py:455-477 | Prepares every file once and keeps exactly the ready ones, in order |
| `PodscribeOrchestrator.Orchestrator.RunPrepared` | AI/podscribe/src/podscribe/orchestrator.py:479-545 | Pool or loop, each prepared file ends as its tasks in order say; it fails, having done nothing, exactly when stage all asks for a pool without workers |
| `PodscribeOrchestrator.Orchestrator.Run` | AI/podscribe/src/podscribe/orchestrator.py:431-545 | One run leaves every discovered file as the run function says, and no other file changed beyond the in-run sets |
| `PemScan.WalkPem` | analysis-tools/pem_extract.py:42-59 | For every way of cutting the input into non-empty blocks, the callbacks are those of one leftmost scan of the whole input |
| `StreamScan.Walk` | analysis-tools/pem_extract.py:42-59 | The same for every matcher whose matches do not depend on their surroundings and do not nest |
| `StreamScan.ReportMatches` | analysis-tools/pem_extract.py:51-58 | Reports the matches of a chunk in order and returns the end of the last one |
| `StreamScan.ReportIsUnique` | analysis-tools/pem_extract.py:56-58 | With unique, the calls are exactly those of the matches that are the first with their fingerprint, with their own bytes and hashes, each once and in order |
| `StreamScan.ReportIsComplete` | analysis-tools/pem_extract.py:56-57 | Without unique, every match is called back, in order |
| `StreamScan.ScanResumes` | analysis-tools/pem_extract.py:46-59 | Scanning a prefix and resuming behind its last match finds what scanning the whole finds |
| `StreamScan.ScanShift` | analysis-tools/pem_extract.py:59 | A scan of what is left after cutting finds what the scan of the whole finds from there on |
| `PemScan.MatchEndIffMatches` | analysis-tools/pem_extract.py:13-16 | The matcher without backtracking and the regular expression agree: a match is determined by where it starts |
| `PemScan.MatchStable` | analysis-tools/pem_extract.py:13-16 | More input neither breaks a match nor changes where it ends |
| `PemScan.LaterStartLaterEnd` | analysis-tools/pem_extract.py:13-16 | A match that starts later ends later: matches do not nest |
| `PemScan.NoBeginInside` | analysis-tools/pem_extract.py:13-16 | No second opening line lies inside a match |
| `PemScan.PemIsStreamable` | analysis-tools/pem_extract.py:13-16 | The PEM pattern meets what searching in a stream needs |
| `PemScan.EveryPemIsFound` | analysis-tools/pem_extract.py:51-53 | Every match of the pattern, wherever it starts, is among those found, unless it starts in the last five dashes of one that is |
| `PemScan.FoundExactly` | analysis-tools/pem_extract.py:51-53 | So a match is found exactly when it does not start inside one that is |
| `PemScan.FoundIffNotHidden` | analysis-tools/pem_extract.py:51-53 | In terms of the input alone: a match is found exactly when no match that is itself not hidden starts before it and ends behind its start |
| `PemScan.SharedDashesHideABlock` | analysis-tools/pem_extract.py:51-53 | Of any two blocks that share five dashes the second is a match of the pattern and is not found |
| `PemScan.FoundIsPem` | analysis-tools/pem_extract.py:51-53 | Whatever is found is a match of the pattern, where the scan says it is |
| `PemBase64.Base64BlockIsFound` | analysis-tools/pem_extract.py:13-16 | Base64 of any bytes, wrapped at will, with its padding and line ends, makes a block that matches the pattern, and a scan of it finds the block |
| `Binomials.Combs` | analysis-tools/combinations.py:13-24 | For all integers the fallback returns the binomial of Pascal's recurrence: the reflection changes nothing and the division is exact |
| `Binomials.FallingIsBinomialTimesFactorial` | analysis-tools/combinations.py:20-24 | The falling factorial is the binomial times the factorial, so the factorial divides it |
| `Binomials.BinomialSymmetric` | analysis-tools/combinations.py:17-18 | Choosing k and choosing the others are equally many |
| `Binomials.Perms` | analysis-tools/permutations.py:13-18 | For all integers the fallback returns the binomial times the factorial of choice, and 0 out of range |
| `Binomials.FallingSplit` | analysis-tools/permutations.py:15-18 | A falling factorial splits into one of its first factors and one of the rest |
| `Binomials.BinomialOfFactorials` | analysis-tools/combinations.py:13-24 | The binomial times k! (n-k)! is n! |
| `PowerLog.Firmware.SampleReportOnce` | pcbs/powerlog/firmware/main.c:89-111 | Writes the line of the sample in hand and never more than 70 of the 96 bytes of the buffer; the counter moves on, wrapping at 2^32, and a FAIL line carries the same id |
| `PowerLog.ChannelFits` | pcbs/powerlog/firmware/main.c:100-101 | The text of a channel never exceeds 19 characters, for every shunt and bus reading |
| `PowerLog.IdFits` | pcbs/powerlog/firmware/main.c:92 | Nor the id 10 |
| `PowerLog.UsualLine` | pcbs/powerlog/firmware/main.c:92-105 | For ids of eight digits and readings that fit their width the line has 52 characters |
| `PowerLog.Current` | pcbs/powerlog/firmware/ina3221.c:81 | The current of a shunt of 20 milliohms: whole milliamperes towards zero, by the inequality, for both signs |
| `PowerLog.Counter` | pcbs/powerlog/firmware/main.c:92 | The sample counter counts modulo 2^32, and one down undoes one up |
| `PowerLog.ParseRecords` | pcbs/powerlog/client/client.go:138-167 | Returns one record for each pair of numbers, an error when a piece is no number in range, and panics exactly on an even number of good pieces |
| `PowerLog.PiecesOfLine` | pcbs/powerlog/client/client.go:139-141 | The pieces the client splits a line into are the texts the firmware printed, with or without the line end |
| `PowerLog.GoodSampleRoundTrip` | pcbs/powerlog/client/client.go:138-167 | A good sample parses back to its id and to the reading of each channel on channels 1 to 3 if its id is below 2^31, and is rejected otherwise |
| `PowerLog.GoodSampleLine` | pcbs/powerlog/firmware/main.c:89-111 | That line is what the firmware writes for a good sample |
| `PowerLog.CutLinePanics` | pcbs/powerlog/client/client.go:148-153 | The panic is real: a line cut off behind the first reading of a channel, such as 7|5000, indexes past the pieces |
| `PowerLog.FailedSampleIsRejected` | pcbs/powerlog/firmware/main.c:106-109 | A FAIL line is rejected, whatever its id |
| `Strings.ParsePrinted` | pcbs/powerlog/client/client.go:143-153 | A number printed with padding parses back as a signed 32-bit number exactly when it is one |
| `Strings.CaseForgets` | go/dockerproxy/rules/evaluator.go:13-14 | Two texts have the same upper case, or lower case, exactly when they are equal letter by letter but for case |
| `DhcpRoutes.MaskOctetNonZero` | go/dhcproute/main.go:134-139 | The non-zero octets of a CIDR mask are the first ceil(p/8) ones, so stopping at the first zero octet writes what RFC 3442 asks for |
| `DhcpRoutes.MaskedValue` | go/dhcproute/main.go:134-139 | Masking an address is arithmetic on its 32-bit value: the value divided by 2^(32-p) and multiplied by it again |
| `DhcpRoutes.MaskedAlike` | python/dhcp121.py:22-31 | Two addresses are masked alike if and only if their first p bits agree |
| `DhcpRoutes.GoRoundTrip` | go/dhcproute/main.go:104-147 | Decoding an encoded route list gives the routes back, with their masks, host bits cleared |
| `DhcpRoutes.GoAndPythonAgree` | go/dhcproute/main.go:104-147 | What is encoded of any routes up to /32 both decoders read alike, as those routes with their host bits cleared |
| `DhcpRoutes.LongPrefix` | go/dhcproute/main.go:109-127 | For every prefix over 32 the Go decoder yields a route with a nil mask, shown as a /0, and the Python decoder refuses; from 249 on the length wraps, no network octet is read, and what is shown is the default route |
| `DhcpRoutes.EncodeDecoded` | python/dhcp121.py:22-31 | A route that was decoded without host bits encodes to the octets it came from |
| `DhcpRoutes.PyAcceptsExactly` | python/dhcp121.py:18-32 | Python accepts exactly what Go accepts with masks that are not nil and no host bits, as the same routes; and encoding what it accepted gives the same octets |
| `DhcpRoutes.PyRoundTrip` | python/dhcp121.py:18-54 | For routes without host bits Python's decoder inverts the encoder |
| `DhcpTools.FormatDHCP` | go/dhcproute/main.go:131-147 | Prints the octets of one route |
| `DhcpTools.BuildOpt` | go/dhcproute/main.go:54-80 | Prints the octets of the routes a command line means, where every network waits for the next gateway; a gateway without networks or an address that does not parse is an error |
| `DhcpTools.NetworksLost` | go/dhcproute/main.go:57-79 | There are never more routes than networks, and as many exactly when the command line does not end in a network |
| `DhcpTools.TrailingNetworksAreDropped` | go/dhcproute/main.go:57-79 | Networks behind the last gateway change nothing: no route, and no error |
| `DhcpTools.LosingCommandLines` | go/dhcproute/main.go:40-79 | At two command lines that the program accepts: two networks alone give an empty option, and a network behind a gateway is left out, both without complaint |
| `DhcpTools.DecodeDHCPOption` | go/dhcproute/main.go:82-102 | Decodes a text to the Go routes of its octets, with a nil mask for a prefix over 32, or fails |
| `DhcpTools.DecodedText` | go/dhcproute/main.go:82-102 | A text of octets decodes as its octets do, except that the empty text is refused |
| `DhcpTools.OctetsAreReadLoosely` | go/dhcproute/main.go:82-102 | An octet is read in upper case and without its leading zero too |
| `DhcpTools.OptionRoundTrip` | go/dhcproute/main.go:54-102 | What the Go tool builds it decodes to the same routes, host bits cleared, unless there are none |
| `DhcpTools.PyEncode` | python/dhcp121.py:43-54 | Writes for each pair of the command line, IPv4 or IPv6, the prefix, as many octets of the network as it covers, and the router; an odd argument or one that does not parse raises |
| `DhcpTools.PyEncodesIpv4` | python/dhcp121.py:43-54 | For IPv4 pairs these are the octets of the Go encoder |
| `DhcpTools.PyReadsBack` | python/dhcp121.py:18-54 | and Python decodes them to the same pairs |
| `DhcpTools.PyDecodeOctets` | python/dhcp121.py:18-32 | Decodes octets as the Python function says, and terminates on every input |
| `UdpRelay.Relay.DgramsToSocket` | go/udptoy/main.go:307-352 | In every run the datagrams received are those dropped and those sent, as multisets and in bytes; nothing is held on return; with full writes bytes out are bytes in less the dropped ones; and without swapping the order is kept |
| `UdpRelay.Relay.HandleInput` | go/udptoy/main.go:326-350 | The same at each turn: the survivors are what was sent, in some order, followed by what is held, in order of arrival |
| `UdpRelay.Relay.Flush` | go/udptoy/main.go:311-319 | Sends what is held exactly once each, in any order, and holds nothing |
| `UdpRelay.Relay.SendDgram` | go/udptoy/main.go:354-372 | Hands one datagram to the socket; the byte counter never exceeds what was sent, and equals it while all writes are full |
| `UdpRelay.SelectSplits` | go/udptoy/main.go:334-337 | Every datagram is either dropped or survives |
| `UdpRelay.SelectTotals` | go/udptoy/main.go:332-337 | The bytes received are the bytes dropped and the bytes of the survivors |
| `UdpRelay.NothingDropped` | go/udptoy/main.go:417-427 | A drop percentage of 0 drops nothing |
| `UdpRelay.AllDropped` | go/udptoy/main.go:417-427 | One of 1 drops everything |
| `UdpRelay.MoreDropsMore` | go/udptoy/main.go:417-427 | With the same rolls a higher percentage never keeps what a lower one dropped |
| `UdpRelay.Chances` | go/udptoy/main.go:417-427 | Below the edge nothing counts, above the other everything, and between them the roll decides |
| `UdpMux.ListenMux.GetWorker` | go/udptoy/main.go:207-227 | The worker of a peer, at most one live one for each; a failed dial changes nothing; bytes stay accounted for |
| `UdpMux.ListenMux.Receive` | go/udptoy/main.go:156-171 | A received datagram is queued last at its peer's worker and counted once; without a worker it is neither |
| `UdpMux.ListenMux.WorkerTakes` | go/udptoy/main.go:307-332 | A worker's own step keeps the account of all four counters |
| `UdpMux.ListenMux.WorkerMoves` | go/udptoy/main.go:354-372 | What a worker writes to either side, or reads from the destination, is added to the account and to nothing else |
| `UdpMux.ListenMux.GcOnce` | go/udptoy/main.go:191-217 | Collecting idle workers keeps the account, in all four directions: total received = mux bytes + those of live workers, taken or queued, and likewise what was written and what was read from the destination |
| `UdpMux.ListenMux.Collect` | go/udptoy/main.go:204-210 | A collected worker is off the table, drained, and all four of its counters are the mux's |
| `UdpMux.ListenMux.Shutdown` | go/udptoy/main.go:231-245 | Afterwards no worker is left and the mux alone accounts for every byte received or sent on either side |
| `UdpMux.Worker.DispatchIncoming` | go/udptoy/main.go:294-301 | Queues a datagram within the capacity of the channel and loses none |
| `UdpMux.Worker.Shutdown` | go/udptoy/main.go:404-411 | Drains the queue: all that was received has been counted |
| `UdpMux.SumRemove` | go/udptoy/main.go:204-210 | Taking a worker off the table takes exactly its share of each counter off the sum |
| `Readers.ReadKeepsOrder` | go/mboxexplore/mboxexplore.go:110-131 | One Read of any size loses, repeats and reorders nothing of the kept lines, and reports the end only when nothing is left |
| `Readers.ReadsAreIndependentOfSizes` | go/mboxexplore/mboxexplore.go:110-131 | For every sequence of buffer sizes, what is read up to the end is the kept lines, each with its line end, and one more line end, which only an empty last buffer loses |
| `Readers.EmptyBufferAtTheEnd` | go/mboxexplore/mboxexplore.go:117-122 | At an input: behind one kept line, a last read with an empty buffer ends without the final line end, and one of a byte with it |
| `Readers.ReadsReachTheEnd` | go/mboxexplore/mboxexplore.go:110-131 | More non-empty reads than there are bytes left do reach the end |
| `Readers.EscapedFromSkipperReader.Read` | go/mboxexplore/mboxexplore.go:110-131 | The method with its buffer and the caller's array does what the specification function says |
| `Readers.FilterSource.Read` | go/glesspipe/filter.go:46-61 | Delivers the next bytes of the source into the caller's array, across the border between prefix and source, with pos within the prefix |
| `Readers.FilterSource.Peek` | go/glesspipe/filter.go:64-68 | Returns the prefix and changes nothing |
| `Readers.NewFilterSource` | go/glesspipe/filter.go:32-44 | Takes the prefix with one Read; nothing counts as delivered, and an error of that Read is an error |
| `Readers.ReadThrough` | go/glesspipe/filter.go:32-61 | Through any sequence of buffer sizes and any deliveries of the source, what is read is the source's data from its start, and all of it when there are as many reads as bytes, no buffer is empty and the source delivers something each time |
| `Ornament.TicksKeepTime` | pcbs/ornament2020/fw/main.c:171-190 | For every sentinel-terminated table, after k calls the time of the current frame and timer is k modulo the total duration, across the 8- and 16-bit wraps; the sentinel is never shown |
| `Ornament.PositionIsUnique` | pcbs/ornament2020/fw/main.c:177-190 | That time determines frame and timer |
| `Ornament.PatternRepeats` | pcbs/ornament2020/fw/main.c:171-190 | Two calls show the same position exactly when they are whole cycles apart |
| `Ornament.BrightInRange` | pcbs/ornament2020/fw/main.c:192-221 | Brightness stays within 0 and the maximum: no narrow integer overflows |
| `Ornament.CrossFade` | pcbs/ornament2020/fw/main.c:202-219 | A ramp up and a ramp down at the same time add up to the maximum |
| `Ornament.RampUpIsMonotone` | pcbs/ornament2020/fw/main.c:202-210 | A ramp up never dims, from dark to full |
| `OrnamentPwm.UpdateOutShows` | pcbs/ornament2020/fw/main.c:270-278 | Writing the two ports shows exactly the bits of the output byte on the six LEDs and keeps the other port bits |
| `OrnamentPwm.CycleIsSteady` | pcbs/ornament2020/fw/main.c:224-263 | Over the 128 steps of a cycle brightness, position and frame count are those of its first step, and LED i is lit exactly when the gamma entry of its brightness exceeds the step |
| `OrnamentPwm.DutyIsGamma` | pcbs/ornament2020/fw/main.c:224-263 | In the first n steps of a cycle LED i is on for as many as the gamma table says for its brightness |
| `OrnamentPwm.NextCycle` | pcbs/ornament2020/fw/main.c:224-248 | A whole cycle is one tick of the pattern, across the wrap of the 8-bit counter |
| `OrnamentPwm.SwitchOffComes` | pcbs/ornament2020/fw/main.c:230-236 | The automatic switch-off comes after 648000 cycles, not before, and turns every LED off |
| `OrnamentPwm.BrightnessFromTable` | pcbs/ornament2020/fw/main.c:192-221 | After m cycles the brightness of each LED is what its own state in the frame at time m modulo the total says: off is dark, on is the maximum, and the ramps last 64 ticks |
| `OrnamentPwm.BrightnessAtFrameStart` | pcbs/ornament2020/fw/main.c:177-190 | At the first moment of a frame it still is that of the last moment of the frame before |
| `OrnamentPwm.GammaIsTheFormula` | pcbs/ornament2020/fw/gentable.py:17-19 | Each of the 128 entries of the shipped table is the value of the generator formula, with exponent 2.5 and maximum 16 |
| `OrnamentPwm.LookupIsSafe` | pcbs/ornament2020/fw/main.c:200-258 | Looking brightness up in a table of n entries is safe for every LED state exactly when the maximum is below n |
| `OrnamentPwm.GammaBuild` | pcbs/ornament2020/fw/gamma.c:5-6 | With the shipped table every maximum up to 127, and no other, makes a valid build |
| `OrnamentPwm.DefaultMaximumOverruns` | pcbs/ornament2020/fw/main.c:25-27 | The default maximum 0x80 makes an LED that is on read one past the end of the table |
| `OrnamentPwm.Firmware.NextPattern` | pcbs/ornament2020/fw/pattern.c:158-174 | Patterns take turns and each starts at its first frame |
| `OrnamentPwm.Firmware.GetBrightnessFromPattern` | pcbs/ornament2020/fw/main.c:171-222 | Updates frame, timer and the brightness array in place as one tick says |
| `OrnamentPwm.Firmware.PwmFrameUpdate` | pcbs/ornament2020/fw/main.c:251-263 | Computes the output byte of a step and writes the ports |
| `OrnamentPwm.Firmware.UpdateLoopStep` | pcbs/ornament2020/fw/main.c:224-248 | One step of the main loop on the static variables is one step of the specification |
| `KeySet.RoundTripExactly` | go/sshkeymgr/keyset.go:21-43 | A key set survives writing and loading if and only if each key has trimmed single-line comments, a key line that parses to its key, and a managed flag that its comments bear out |
| `KeySet.LoadWriteLoad` | go/sshkeymgr/keyset.go:21-43 | Loading what was written of a loaded text gives the same key set |
| `KeySet.ManagedStaysClean` | go/sshkeymgr/keyset.go:146-155 | Marking a key as managed keeps it so exactly when the added comment is one line |
| `KeySet.ManagingLoadedKeys` | go/sshkeymgr/keyset.go:146-155 | A loaded key has no shortname, so marking it as managed is always written and loaded again as it is, when neither date nor fingerprint holds a line end |
| `KeySet.EditsRoundTrip` | go/sshkeymgr/keyset.go:21-155 | After any sequence of such edits and removals, what is written loads again as it is, as long as no date, shortname or fingerprint holds a line end |
| `KeyManager.LoadKeySet` | go/sshkeymgr/keyset.go:21-34 | Collects the keys off a scanner, or fails with the first error |
| `KeyManager.ReadKeydataFromScanner` | go/sshkeymgr/keyset.go:85-106 | Reads one key and leaves the scanner at the line after it |
| `KeyManager.LoadKeydata` | go/sshkeymgr/keyset.go:111-135 | For any lines: the key, its comments and its managed flag, or the first fault met: a key line that does not parse, a second key line, or none |
| `KeyManager.Keys.RemoveKeyBySpec` | go/sshkeymgr/keyset.go:48-66 | Compacts the slice in place to exactly the keys that the spec does not name, in order: by the parsed public key of the spec and its fingerprint, or, when it does not parse, by the SHA256 or MD5 fingerprint given; reports whether one matched; and leaves all slots alone when none did |
| `KeyManager.Compact` | go/sshkeymgr/keyset.go:53-61 | The loop of it, for any elements and any test |
| `KeyManager.KeyData.AddManagedComment` | go/sshkeymgr/keyset.go:146-155 | Adds the comment once and sets the flag |
| `KeySet.WrittenLines` | go/sshkeymgr/keyset.go:141-144 | What is written for a key is its comments and its key line, each ended by a line end, an empty line standing for no comments |
| `KeySet.RemovedExactly` | go/sshkeymgr/keyset.go:48-66 | What is left has neither the SHA256 nor the MD5 fingerprint named and is never the key given as spec, and nothing else is missing |
| `KeySet.ManagedLineReads` | go/sshkeymgr/keyset.go:146-155 | The added comment line holds the date, the shortname and the fingerprint at the places and between the marks it should |
| `DockerEvaluator.Evaluate` | go/dockerproxy/rules/evaluator.go:42-142 | The first rule that applies decides with its action, message and id, the default otherwise; without a ruleset everything is allowed |
| `DockerEvaluator.EvaluateContainerCreate` | go/dockerproxy/rules/evaluator.go:144-264 | Applies exactly when privilege fits and, for deny rules, a list is violated or the rule has none or is about privilege; for others, when no list is violated |
| `DockerEvaluator.EvaluateExecCreate` | go/dockerproxy/rules/evaluator.go:266-318 | Deny and allow are exact complements: a deny rule applies exactly when a list is violated, any other exactly when none is |
| `DockerEvaluator.AnyPortViolates` | go/dockerproxy/rules/evaluator.go:182-187 | The answer does not depend on the order the port map is walked in |
| `DockerEvaluator.FindContainerName` | go/dockerproxy/rules/evaluator.go:279-286 | Finds the part behind the first part named containers |
| `DockerPolicy.ContainerNameIsRead` | go/dockerproxy/rules/evaluator.go:275-286 | The name is read back from every path with any prefix, the name and more, and any query |
| `DockerRequests.CommandType` | go/dockerproxy/rules/evaluator.go:12-38 | The command type of every request, from its method in any case and the parts of its path: the last parts decide create, exec and list, a part that starts with build decides build if neither of the first two does, and the rest is inspect, delete or other; the query has no say |
| `DockerRequests.ExecEndToEnd` | go/dockerproxy/rules/evaluator.go:266-318 | From the request to the decision: a lone deny exec rule denies a POST on containers/<name>/exec exactly when the joined command or the name matches none of its patterns, and a lone allow rule allows it exactly otherwise |
| `DockerRequests.CreateEndToEnd` | go/dockerproxy/rules/evaluator.go:144-264 | The same for a rule with lists about creating containers, in terms of the image, the name in the query, the binds, the ports, and, for deny rules, the mounts |
| `DockerRequests.PrivilegeEndToEnd` | go/dockerproxy/rules/evaluator.go:144-153 | A rule about privilege alone applies exactly to the create requests that are privileged, or are not, as it says |
| `DockerRequests.LoneMatchers` | go/dockerproxy/rules/evaluator.go:50-96 | A rule without parts applies exactly when its methods, in any case or by *, its command types, in any case, its pattern on the whole URI and its pattern on the body all let the request in |
| `DockerRequests.Messages` | go/dockerproxy/rules/evaluator.go:125-134 | A rule without a message denies with a message that names it, one without an id is called anonymous, and a message of its own is kept |
| `DockerRequests.NoRules` | go/dockerproxy/rules/evaluator.go:137-141 | Without rules the default decides, and without a default requests are allowed |
| `DockerPolicy.CommandTypeIgnoresQueryAndCase` | go/dockerproxy/rules/evaluator.go:12-38 | Neither the query nor the case of the method has a say in the command type |
| `DockerPolicy.FirstMatchIsUnique` | go/dockerproxy/rules/evaluator.go:50-141 | The first rule that applies is the only index with none before it |
| `DockerPolicy.ContainerComplement` | go/dockerproxy/rules/evaluator.go:144-264 | A container rule denies exactly when it would not allow, if and only if privilege fits and a list is violated, or the rule has lists, none about privilege, and no mount violates them; always so for a rule with lists only and a request without mounts |
| `DockerPolicy.MountSlipsThrough` | go/dockerproxy/rules/evaluator.go:225-233 | At an input: an allow rule for mounts under /srv lets a container mount /etc through HostConfig.Mounts, although the default is deny; the same rule as a deny rule refuses it |
| `DockerPolicy.PrivilegeRuleIgnoresLists` | go/dockerproxy/rules/evaluator.go:215-221 | At an input: a deny rule about privilege applies to a request that violates none of its lists |
| `DockerPolicy.ReferenceRuleDeniesPrivilegedOnly` | go/dockerproxy/specs/001-docker-api-proxy/contracts/ruleset.schema.yaml:7-21 | The reference ruleset means rule 1 to deny privileged mode and mounts or ports outside its lists; as the only rule it denies exactly the privileged requests that its other matchers let in, so an unprivileged container may mount anything |
| `DockerPolicy.DualityExactly` | go/dockerproxy/rules/evaluator.go:42-142 | One deny rule with default allow and the same rule as allow rule with default deny agree on a request exactly when the rule's other matchers let it in and it is an exec rule or such a container rule |
| `DockerPolicy.DenyListDeniesWhenAnyApplies` | go/dockerproxy/rules/evaluator.go:50-141 | A list of deny rules denies exactly when any of them applies, in whatever order |
| `DockerPolicy.LaterRulesDecideTheRest` | go/dockerproxy/rules/evaluator.go:50-141 | Rules put behind a ruleset decide only what no earlier rule decides |
| `DockerLoader.LoadedIffAccepted` | go/dockerproxy/config/loader.go:29-97 | A ruleset is loaded if and only if its default is allow, deny or absent, every action is known and every pattern compiles; ports are not patterns |
| `DockerLoader.LoadingKeepsDecisions` | go/dockerproxy/config/loader.go:29-44 | Normalising and defaulting change no action, message or rule id for any request |
| `DockerLoader.LoadingIsIdempotent` | go/dockerproxy/config/loader.go:29-44 | Loading what was loaded changes and refuses nothing |
| `DockerLoader.LoadedDecisions` | go/dockerproxy/rules/evaluator.go:50-141 | The decision of a loaded ruleset is allow, deny or filter, and is the same with an engine on which no pattern fails to compile |
| `DockerLoader.SemanticRule.Normalise` | go/dockerproxy/config/loader.go:39-44 | Upper-cases methods and lower-cases command types in place |
| `DockerLoader.SemanticRule.Validate` | go/dockerproxy/config/loader.go:45-84 | Reports the first fault of a rule in the source's order |
| `DockerLoader.RulesetFile.Load` | go/dockerproxy/config/loader.go:29-87 | Reports the first fault of the file; a file without one is left normalised |
| `Ptrace.EventsArePaired` | go/tracer/ptrace/ptrace.go:133-190 | For every stream of stops the events of each process are entries and exits in turn, starting with an entry; each exit carries its entry's number, arguments and argv; a call is pending exactly while its entry is the last event |
| `Ptrace.EventsAreStops` | go/tracer/ptrace/ptrace_amd64.go:31-67 | In every run the events are, one for one and in order, those of the system call stops: number, arguments and, for execve alone, argv from the registers of an entry; result, error and arguments from those of an exit |
| `Ptrace.AllExitedMeansAllExited` | go/tracer/ptrace/ptrace.go:151-158 | The loop leaves by the empty set only when the last thing heard of every process is its exit |
| `Ptrace.ReusedPid` | go/tracer/ptrace/ptrace.go:151-189 | When a process id is used again, its first stop is reported as an entry if and only if the old process had no call pending when it exited; otherwise as the exit of the old one's call |
| `Ptrace.ReusedPidHappens` | go/tracer/ptrace/ptrace.go:151-189 | At an input: a process dies in a call it has entered, its id is used again, and the newcomer's first stop is reported as the exit of that call |
| `Ptrace.ErrnoOffByOne` | go/tracer/ptrace/ptrace_amd64.go:31-37 | A result reads as no error exactly below 2^64 - 4096; every kernel error is reported, and one valid result, 2^64 - 4096, reads as error 4096 |
| `Ptrace.Trace` | go/tracer/ptrace/ptrace.go:129-191 | The loop with its maps yields the events and the outcome of the specification's run |
| `SshScan.ProgressIsHonest` | go/sshscan/main.go:137-148 | Under every interleaving of the atomic operations of any number of workers the lines logged are 1000, 2000, ... once each and in order, reported never exceeds count, and count plus the unflushed work is the number of steps of the schedule at which a scan succeeded |
| `SshScan.FinalCountIsTotal` | go/sshscan/worker.go:19-51 | When all workers are done the count is the number of steps at which a scan succeeded and every reported line has been logged |
| `SshScan.SoloLogsEveryThousand` | go/sshscan/main.go:137-148 | A worker on its own has in the end logged one line for each full thousand of successful scans |
| `SshScan.SomeWorkerCanMove` | go/sshscan/main.go:139-140 | The mutex never blocks everyone |
| `SshScan.NextInv` | go/sshscan/main.go:137-148 | The invariant behind these is kept by every atomic operation of every worker |
| `SshScan.Scan.Step` | go/sshscan/worker.go:26-51 | The atomic operations on the shared fields are those of the specification and keep the invariant |

## Left out

- Podscribe: error texts, durations, word counts, the cost report, the final summary and the RSS fetcher are not modelled; file stems are taken to be distinct.
- Podscribe: writing a transcript may fail or break off, in one step; writing the state file, reading a transcript and creating directories do not fail, and nobody deletes raw transcripts.
- Podscribe: `ThreadPoolExecutor` threads interleave at the granularity of the steps in `Advance`; each step holds the state lock or makes one call.
- PemScan.WalkPem: blocks are the successive results of `read`; hashing of certificates is an arbitrary function, and saving to files is not modelled.
- UdpMux.ListenMux.GcOnce: dispatch, collection of one worker with its drain, and shutdown are single steps; the races between dispatch and collection, and between `Add` and `Wait` of the wait group, are not modelled.
- UdpRelay.Relay.DgramsToSocket: timers are inputs that may come at any turn; percentages and rolls are reals, not 32-bit floats; byte counters do not wrap.
- UdpMux.ListenMux.WorkerMoves: what the loops write and read is any number of bytes here; how it follows from the datagrams is `UdpRelay.Relay.DgramsToSocket`, for either direction.
- DhcpTools.BuildOpt: networks are IPv4; of an IPv6 network the source prints up to 16 octets. Address parsing is an arbitrary function.
- DhcpTools.PyDecodeOctets: works on octets; the conversion from and to hexadecimal text in Python is not modelled, and the module's printing functions, which fail on a wrong name, are not either.
- PowerLog: timestamps, the sample cache and the database handlers are not modelled.
- Readers.EscapedFromSkipperReader.Read: works on the results of `ReadLine`; over-long lines and the aliasing of bufio's buffer are not modelled.
- OrnamentPwm.Firmware.UpdateLoopStep: the touch interrupt, sleeping, and the call with a null pattern before the first touch are not modelled; pattern tables are arbitrary, not the shipped ones.
- KeySet.RoundTripExactly: the scanner's limit of 64 KiB on a line and errors of the reader, on which loading fails, are not modelled. Key parsing is an arbitrary function, of which only is used that it refuses the empty line.
- KeySet.EditsRoundTrip: the shortname is not written to the file and so not part of the keys compared; keys added from other files are not modelled.
- DockerPolicy: upper and lower case are those of ASCII letters; other characters are left as they are. Response filtering and the proxying of connections are not modelled.
- DockerLoader.RulesetFile.Load: starts from the decoded file; reading it and YAML errors are not modelled.
- Ptrace.EventsArePaired: a process ended by a signal is seen as any other stop, as the source does; the time stamps, error names and argument reading of events are not modelled.
- SshScan.ProgressIsHonest: counters do not wrap at 2^64; there is no bound on how far the reported total lags behind, as none holds once the workers are done.
- Binomials: only the fallbacks are modelled, not Python's own `math.comb` and `math.perm`.
- The remaining tools of the repository (web front ends, hardware libraries, vulnerable sample boxes, the benchmark queue and small command line filters) are not modelled.
