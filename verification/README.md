# cternal in Dafny

cternal opens terminals to containers in a browser, records what they print and plays the
recordings back. This project models the parts of it that hold real invariants and proves them.

- **Live output.** `Outbox`, `ExecPipeline`, `LogsPipeline`, `Sessions`, `Fanout` and
  `FanoutProgress` model the goroutines between a container stream and the WebSocket clients: bounded
  channels, non-blocking sends, `done` channels, subscriber snapshots, and the replay of the recording
  a client gets first.
  `ExecPipeline` is a step relation, `LogsPipeline` and `Fanout` are sets of actions; results hold for
  every interleaving, with any number of clients, chunks and failures.
- **Recording and playback.** `Events`, `Recording`, `Clamp`, `Crlf`, `Json`, `Decimal`, `Scanner`,
  `Cast`, `Headers`, `LoadCast`, `Logs` and `Player` model the event log, the asciicast export with
  its idle limit, the loader that reads it back, the converters from container logs, and the player.
- **Session lifecycle.** `Store`, `Ttl`, `Expiry`, `Lifecycle`, `Overlaps` and `Outcomes` model
  the capped registry, the expiry timers alone and with the program's callback, and the create and
  evict handlers, interleaved.
- **Browser state machines.** `Reconnect` and `Replay` model the reconnecting socket and the replay
  view.

Where the source changes state, so does the model: the recorder, sessions, store, TTL manager,
player, socket closure and replay view are classes, and the export, the loader, the log converters,
the player and the replay view keep their loops. Each method is proved against a function of the old
state, and the results are proved about that function.

A Go string and a Go byte slice are both a Dafny `string`; times are integer nanoseconds; seconds,
speeds and limits are exact rationals.

## What the proofs found

- **The seam between replay and live output, attach mode** (`Fanout.Seam`, `Fanout.GapWitness`,
  `Fanout.RepeatWitness`). The repository's design promises that a reconnecting client gets the output
  it missed. The recording is read before the client subscribes, so an output broadcast in between is
  lost to it, and one recorded before and broadcast after is shown twice. The client's view is exact if
  and only if the number of broadcasts begun when it subscribed is the number of outputs its replay
  held.
- **The same seam, exec mode** (`ExecPipeline.ExecSeam`, `ExecPipeline.ExecGapWitness`). The reader of a
  client that has gone still takes chunks; they are recorded and never reach the client that has
  reconnected. Its view is exact if and only if no other handler recorded a chunk after its replay was
  read.
- **Expiry and reconnect** (`Expiry.StoredTimersCanBeCancelled`, `Expiry.LostTimerWitness`). The timer
  map can lose an armed timer: a callback's last step deletes whatever entry its session has by then.
  With the program's callback this is harmless. Whenever it happens the session is already out of the
  store, for good (`Expiry.LostTimersAreHarmless`); an armed timer of a stored session can always be
  cancelled.
- **Double ends** (`Lifecycle.DoubleEndWitness`, `Overlaps.OverlapAccounts`). A delete request and an
  expiry that both find the session end it twice: two `session.end` notices, and the gauge is one short
  for good. A deleted session has one end if and only if no eviction of it started while another had
  yet to delete it, and the gauge is right if and only if that happened to no session.
- **Two attach sessions** (`Lifecycle.TwoAttachWitness`, `Overlaps.OnlySaveDoubles`,
  `Overlaps.AttachSessions`). The design allows one per container; two concurrent requests can make
  two. A step makes a second one if and only if it saves an attach session, below the cap, for a
  container that has one by then; no run does so in which no attach request looks its container up
  while another one for it is between its lookup and its save.
- **CRLF across reads** (`Crlf.PumpLaw`, `Crlf.SplitWitness`). The pump normalises each chunk on its
  own, so a CRLF split between two reads comes out with one CR too many, and that is the only
  difference.
- **Long lines** (`LoadCast.WholeRecordingLoads`, `LoadCast.LongOutputWitness`). A recording comes back
  whole if and only if every line of its file is under the scanner's 64 KiB.
- **Logs with some timestamps missing** (`Logs.MixedLogSorted`, `Logs.MixedLogWitness`). A line without
  a timestamp after one with is recorded at time zero, so the recording can go back in time. The
  lemma gives the exact condition on the lines and the clock under which it does not.
- The design document says asciicast v3; the code writes version 2, and so does the model.

## Model

| member | source | states |
|---|---|---|
| Outbox.WriterKeeps | internal/api/ws.go:102-109 | the writer loses no queued frame while it lives, writes in order, and closes `done` once |
| Outbox.SendKeeps | internal/api/ws.go:125-129 | a send into `writeCh` with room extends what the writer owes by that frame |
| Outbox.CloseKeeps | internal/api/ws.go:113 | closing `writeCh` once loses nothing |
| Outbox.WrittenIsPrefix | internal/api/ws.go:101-109 | whatever fails, the client got an initial part of what was sent |
| Outbox.WriteOutcome | internal/api/ws.go:104-108 | a successful write puts its frame on the socket and the writer goes on; a failed one stops it |
| ExecPipeline.ReaderKeeps | internal/api/ws.go:112-137 | every step of the stream reader keeps the accounting of taken, sent, queued and written frames |
| ExecPipeline.LocalKeeps | internal/api/ws.go:97-149 | so does every step of the writer, the main loop and the socket |
| ExecPipeline.RunKeeps | internal/api/ws.go:97-149 | the invariant holds in every reachable state of any number of handlers on one stream |
| ExecPipeline.HandlerOrder | internal/api/ws.go:97-137 | with a live writer: written, in the writer, in `writeCh` and in the reader, joined, are the frames of all chunks taken, then at most one exit |
| ExecPipeline.ExecOrder | internal/api/ws.go:97-149 | the same in every run; frames written are a prefix of it; exit is written last and only after the stream ended; a return with a good socket means all was delivered |
| ExecPipeline.ExecChannels | internal/api/ws.go:98-137 | `writeCh` and `done` are closed at most once and never sent to after; a reader whose writer stopped takes at most 65 more chunks |
| ExecPipeline.FewChunksAfterStop | internal/api/ws.go:112-130 | from any moment at which its writer has stopped a reader takes at most 65 more chunks |
| ExecPipeline.RecordingConserved | internal/api/ws.go:112-130 | recorded outputs plus chunks in readers' hands are, as a multiset, all chunks taken; with one reader, as a sequence |
| ExecPipeline.CanStepIsExact | internal/api/ws.go:102-148 | exactly when each goroutine has a step, checked against the step relations |
| ExecPipeline.NoDeadlock | internal/api/ws.go:101-148 | reader and writer are never both blocked before both are done, and then the handler returns |
| ExecPipeline.MeasureFalls | internal/api/ws.go:97-148 | with the stream ended, every step of a handler lowers a natural number |
| ExecPipeline.StuckMeansReturned | internal/api/ws.go:97-148 | a handler with no step left has returned with each channel closed exactly once |
| ExecPipeline.ExecTerminates | internal/api/ws.go:97-148 | once the stream has ended, from any state of any run, the handler's own steps are bounded by the measure and end in such a return |
| ExecPipeline.StepKeepsAuthors | internal/api/ws.go:67-130 | every step keeps each handler's account of the chunks it took and recorded, none before its replay was read |
| ExecPipeline.ExecSeam | internal/api/ws.go:66-130 | for a drained client with a live writer, replay plus live output is the recording if and only if no other handler recorded a chunk after the replay was read |
| ExecPipeline.ExecGapWitness | internal/api/ws.go:66-130 | a run in which a stale reader takes a chunk the connected client never gets |
| LogsPipeline.StepKeeps | internal/api/ws.go:216-281 | every step of the scanner, writer, main loop and socket keeps the accounting of lines scanned, recorded, sent, queued and written |
| LogsPipeline.LogsOrder | internal/api/ws.go:216-281 | the handler records the conversion of the lines scanned; written, in the writer, in `writeCh` and in hand, joined, are its data; the client has a prefix of the converted log, and all of it after a return with a good socket |
| LogsPipeline.LogsChannels | internal/api/ws.go:216-270 | each channel is closed at most once and never sent to after; at most 65 lines are recorded once the writer has stopped |
| LogsPipeline.FewLinesAfterStop | internal/api/ws.go:236-269 | from any moment at which its writer has stopped the scanner records at most 65 more lines |
| LogsPipeline.LogsNoDeadlock | internal/api/ws.go:219-270 | a scanner holding a frame and the writer are never both blocked |
| LogsPipeline.LogsTerminate | internal/api/ws.go:216-281 | over a log that ends every run is bounded by its length, and one that cannot go on has returned with each channel closed once |
| Sessions.WithoutRemoves | internal/session/session.go:130-135 | splicing a subscriber out of the list removes it and nothing else |
| Sessions.Session.constructor | internal/session/session.go:115-191 | a new session has no subscriber and no pump |
| Sessions.Session.Subscribe | internal/session/session.go:115-124 | appends a fresh subscription with an empty channel |
| Sessions.Session.Unsubscribe | internal/session/session.go:128-138 | the search and splice removes the subscription wherever it is, and closes its Done once |
| Sessions.Session.Broadcast | internal/session/session.go:141-154 | every listed channel with room gets the chunk, every full one is left as it was |
| Sessions.Session.StartStreamPump | internal/session/session.go:168-191 | any number of calls start one pump, and none without a stream |
| Sessions.Session.Pump | internal/session/session.go:174-188 | the pump loop records every chunk, normalised unless in exec mode, and offers each to every subscriber |
| Sessions.PumpRecordsStream | internal/session/session.go:174-188 | the recorded text is the normal form of the stream if and only if no read split a CRLF; else longer by one CR per split |
| Fanout.ActKeeps | internal/api/ws.go:153-198 | every step of a client's handler, forwarder and writer keeps its order, channel and flush invariants |
| Fanout.RecordKeeps | internal/session/session.go:186 | so does the pump recording a chunk before broadcasting it |
| Fanout.SnapshotKeeps | internal/session/session.go:141-145 | so does the subscriber snapshot taken under the lock and used outside it |
| Fanout.OfferKeeps | internal/session/session.go:147-153 | so does each non-blocking send of a broadcast |
| Fanout.SubscribeKeeps | internal/api/ws.go:154 | so does subscribing |
| Fanout.StartKeeps | internal/api/ws.go:158 | so does starting the pump, once |
| Fanout.UnlistKeeps | internal/session/session.go:128-136 | so does leaving the list while a broadcast may still hold the subscription |
| Fanout.RunKeeps | internal/session/session.go:115-191 | the invariant holds in every reachable state |
| Fanout.FanoutOrder | internal/api/ws.go:84-187 | after a flush of n outputs a client gets an in-order selection of the recorded outputs from index n-1 on: one repeat at most, none out of order |
| Fanout.HeldIsOffered | internal/session/session.go:141-154 | the broadcasts whose snapshot held a client are those offered to it, but for one in progress |
| Fanout.FanoutAccounting | internal/session/session.go:141-154 | sent plus dropped (plus one in progress) equals the broadcasts whose snapshot held the subscriber |
| Fanout.DropsOnlyWhenFull | internal/session/session.go:147-153 | a chunk is dropped for a subscriber if and only if 64 are queued, in any state and step |
| Fanout.NeverFullIsContiguous | internal/session/session.go:141-188 | a subscriber never found full receives a contiguous run of outputs, from output 0 for the client that started the pump |
| Fanout.FanoutChannels | internal/api/ws.go:154-187 | each channel is closed at most once, none is sent to after, none overfills |
| Fanout.Seam | internal/api/ws.go:66-76 | for a drained client that lost nothing, replay plus live output is the recording if and only if no broadcast fell, or was pending, between the two |
| Fanout.GapWitness | internal/api/ws.go:66-74 | a run in which an output reaches a client neither way |
| Fanout.RepeatWitness | internal/api/ws.go:66-74 | a run in which an output reaches a client both ways |
| FanoutProgress.PumpRecords | internal/session/session.go:174-188 | in every run the recorded outputs are the normal forms of the chunks read, in order, less the one in hand; the other events are the clients' messages, in order |
| FanoutProgress.PumpRunsOn | internal/session/session.go:168-190 | the pump is idle exactly until the first start, and ends only when a read has failed |
| FanoutProgress.PumpNeverStuck | internal/session/session.go:174-188 | a started pump always has a step until the stream ends, and each but a read brings it nearer to reading again |
| FanoutProgress.FanoutDelivers | internal/api/ws.go:163-187 | while a client's socket is up its forwarder and writer have not stopped, and run out of steps only when every chunk accepted for it has been written, in order |
| FanoutProgress.HandlerComesToRest | internal/api/ws.go:66-198 | every step of a handler, from its replay to its return, takes it nearer to rest |
| FanoutProgress.HandlerRests | internal/api/ws.go:153-198 | nothing is left to do for a client exactly when its handler waits for a chunk, or for the client, or is over; once the client has left and the writer has stopped, it is over |
| FanoutProgress.DownShowsNothing | internal/api/ws.go:84-94 | a failed write takes the socket down, and then nothing more is shown |
| FanoutProgress.StarterIsFirst | internal/session/session.go:168-173 | the first client to ask starts the pump, and no other |
| FanoutProgress.ReplayIsWhole | internal/api/ws.go:85-93 | a client is replayed the whole recording as it is when read |
| Recording.Recorder.constructor | internal/recorder/recorder.go:16-18 | a new recorder is empty and starts its clock |
| Recording.Recorder.Add | internal/recorder/recorder.go:21-29 | appends one event at the time since the start |
| Recording.Recorder.AddAt | internal/recorder/recorder.go:61-69 | appends one event at the given time |
| Recording.Recorder.EventsSince | internal/recorder/recorder.go:33-43 | the events from an offset on, nothing past the end |
| Recording.Recorder.All | internal/recorder/recorder.go:53-55 | a copy of the whole log |
| Recording.LogTimes | internal/recorder/recorder.go:21-29 | each logged event carries its own call's type, data and elapsed time |
| Recording.LiveExport | internal/recorder/cast.go:50-68 | fed by Add only, times never decrease, exported rows are sorted, and rows exported mid-session are a prefix of those exported later |
| Clamp.OutputRows | internal/recorder/cast.go:50-67 | a recording of outputs exports one row each, stepping by min(gap, limit) |
| Clamp.RowSteps | internal/recorder/cast.go:50-67 | any recording exports one row per output, stepping by the clamped gap between outputs |
| Clamp.GapOfCursors | internal/recorder/cast.go:55-60 | each step of the exported times is the clamped raw gap |
| Clamp.CursorTwice | internal/recorder/cast.go:55-60 | clamping clamped times again is clamping once with the tighter limit |
| Clamp.ExportTwice | internal/recorder/cast.go:32-68 | exporting an export is one export with min of the limits, for any times; same limit changes nothing |
| Clamp.OnlyOutputsMatter | internal/recorder/cast.go:50-53 | inserting or removing an input or resize event anywhere changes no row |
| Clamp.ExportPrefix | internal/recorder/cast.go:50-68 | more events never change the rows already exported |
| Clamp.NoLimitTelescopes | internal/recorder/cast.go:47-60 | without a limit every row has its raw time |
| Clamp.CursorBounds | internal/recorder/cast.go:47-60 | the adjusted time is never above the raw time nor above n limits |
| Clamp.CursorMonotone | internal/recorder/cast.go:47-60 | for sorted times the adjusted time never goes back and the time removed never shrinks |
| Clamp.ExportSorted | internal/recorder/cast.go:50-68 | sorted recordings export sorted rows |
| Crlf.FoldUndoesUnfold | internal/api/ws.go:327-330 | the second pass followed by the first is the identity on every string |
| Crlf.NormalizeIdempotent | internal/api/ws.go:327-330 | normalising twice is normalising once |
| Crlf.NormalizeIsOnePass | internal/api/ws.go:327-330 | the two passes equal a one-pass reference that puts a CR before each LF lacking one |
| Crlf.FixedPoints | cmd/cternal/logscast.go:120-123 | the unchanged strings are exactly those whose every LF follows a CR |
| Crlf.ChunkLaw | internal/session/session.go:182-185 | N(a+b) = N(a)+N(b) if and only if the boundary does not split a CRLF; else one CR extra |
| Crlf.PumpLaw | internal/session/session.go:182-188 | the pump's output is N of the stream with one CR doubled per split CRLF |
| Crlf.LineData | internal/api/ws.go:254-255 | a log line comes out without one trailing CR, ended by the only LF as CRLF |
| Crlf.SplitWitness | internal/session/session.go:182-188 | the chunks `a CR` and `LF b` come out with two CRs |
| Json.StringRoundTrip | internal/recorder/cast.go:62 | every string survives JSON escaping and unescaping, whatever follows (section 7 of RFC 8259) |
| Json.EscapeHasNoControls | internal/recorder/cast.go:62 | an escaped string has no raw line break or other control character |
| Json.EscapeHasNoMarkup | internal/recorder/cast.go:62 | nor any of the characters json.Marshal escapes for HTML and JavaScript |
| Json.EscapeLengths | internal/recorder/cast.go:62 | the seven characters with a short escape get it, other unsafe ones six characters, the rest stand for themselves |
| Json.SurrogatePair | cmd/cternal/play.go:122 | a surrogate pair reads as its one character |
| Json.LoneSurrogate | cmd/cternal/play.go:122 | a surrogate on its own reads as U+FFFD |
| Json.OtherEscapes | cmd/cternal/play.go:122 | the escaped slash reads as a slash, and no raw control character is let through |
| Decimal.SecondsRoundTrip | cmd/cternal/play.go:114-126 | any number of nanoseconds, printed as seconds and read back, is itself |
| Decimal.ExponentReads | cmd/cternal/play.go:115 | an exponent is either letter, an optional sign and digits (section 6 of RFC 8259) |
| Decimal.ExponentFollows | cmd/cternal/play.go:115 | a number is its integer, fraction and exponent put together |
| Decimal.NumberRefused | cmd/cternal/play.go:115 | a point or an exponent without digits is refused, and a leading zero stands alone |
| Decimal.ShiftDown | cmd/cternal/play.go:126 | digits below a nanosecond are dropped |
| Decimal.SecondsHasNoControls | internal/recorder/cast.go:62 | a printed number has no control character |
| Scanner.ScanLines | cmd/cternal/play.go:97-99 | the scanner gives back printable lines as written, up to the first that is too long |
| Scanner.AllShort | cmd/cternal/play.go:97-131 | it gives back all of them if and only if each is under the limit |
| Scanner.ScanCRLF | cmd/cternal/play.go:97-100 | a line ended by CRLF reads like one ended by LF |
| Scanner.ScanLast | cmd/cternal/play.go:97-100 | a last line without an LF is read |
| Scanner.LengthCountsBytes | cmd/cternal/play.go:97-99 | the scanner's limit counts UTF-8 bytes |
| Cast.LimitOf | internal/recorder/cast.go:42-45 | the limit in force is the header's seconds in nanoseconds, less than one short, and zero for none |
| Cast.LimitAtWork | internal/recorder/cast.go:42-60 | a gap is exported as it is up to the header's limit and cut to it, within a nanosecond, above; a limit under a nanosecond cuts nothing |
| Cast.Marshal | internal/recorder/cast.go:32-70 | the two-cursor loop writes the header line and the rows of the export function, one line each |
| Cast.RowAdded | internal/recorder/cast.go:55-67 | one turn of the loop adds the row of the next output and keeps the cursors at its adjusted and raw time |
| Headers.HeaderReads | internal/recorder/cast.go:10-40 | reading the header line back gives version 2 and each field that is not left out, in order |
| Headers.HeaderFieldsFound | internal/recorder/cast.go:10-40 | each field is found under its own name with its own value, the idle limit to the nanosecond; zero and empty ones are not found |
| LoadCast.LoadCast | cmd/cternal/play.go:96-131 | the scan loop with its `first` flag computes the events of the lines after the header |
| LoadCast.RowRoundTrip | cmd/cternal/play.go:109-129 | every event printed as a row reads back as itself |
| LoadCast.ExtraFieldSkips | cmd/cternal/play.go:110-113 | a row with a fourth field is skipped |
| LoadCast.MissingFieldSkips | cmd/cternal/play.go:110-113 | a row with two fields is skipped |
| LoadCast.BlanksChangeNothing | cmd/cternal/play.go:109-129 | blanks anywhere between the items of a row change nothing |
| LoadCast.ScalarsMakeEvent | cmd/cternal/play.go:114-129 | an event is a number or null, then strings or nulls, null counting as zero; anything else is skipped |
| LoadCast.BadLineLosesItself | cmd/cternal/play.go:100-122 | a bad row or blank line, wherever it is, loses itself and nothing else |
| LoadCast.HeaderIsSkipped | cmd/cternal/play.go:104-108 | the first line that is not blank is skipped, whatever it says |
| LoadCast.TrimSpaceIs | cmd/cternal/play.go:100 | trimming takes all white space off both ends and nothing else |
| LoadCast.TrailingTextSkips | cmd/cternal/play.go:110-113 | a row followed by anything but blanks is skipped |
| LoadCast.RowShape | internal/recorder/cast.go:62-67 | a row is one line, unchanged by trimming and not empty |
| LoadCast.HeaderShape | internal/recorder/cast.go:35-40 | so is every header, whatever its title and environment |
| LoadCast.CastRoundTrip | cmd/cternal/play.go:96-131 | loading a written file returns its rows, in order, up to the first line too long, with an error if and only if there is one |
| LoadCast.WholeRecordingLoads | cmd/cternal/play.go:96-131 | the clamped outputs come back exactly if and only if every line is under the scanner's limit |
| LoadCast.LongOutputLost | cmd/cternal/play.go:97-131 | a first output of 64 Ki characters or more is lost, and reported as an error |
| LoadCast.LongOutputWitness | cmd/cternal/play.go:97-131 | such an output: 65536 times one letter |
| LoadCast.ReexportText | internal/recorder/cast.go:32-70 | exporting a loaded export gives the file of one export with the tighter limit |
| Logs.SplitAtFirstSpace | cmd/cternal/logscast.go:78-88 | a line splits at its first space if and only if a timestamp precedes it, and is otherwise kept whole |
| Logs.RecordLogs | cmd/cternal/logscast.go:69-101 | the CLI line loop computes the conversion; a scan error loses everything |
| Logs.RunLogscast | cmd/cternal/logscast.go:69-112 | the CLI's cast file is the export of that conversion under its fixed 220x50 header |
| Logs.LogsPump | internal/api/ws.go:228-270 | the WebSocket loop records what the CLI loop records for the same lines, and queues a frame for each but perhaps the last |
| Logs.StampedEvents | internal/api/ws.go:242-261 | with every line stamped, each event has its stamp less the first and its message's data |
| Logs.RecordedData | cmd/cternal/logscast.go:78-97 | each line, stamped or not, is recorded as its message or the whole line, without one trailing CR, ended by CRLF |
| Logs.LogShown | internal/api/ws.go:236-261 | so is every line scanned from any log |
| Logs.LogsKeepTheirTiming | cmd/cternal/logscast.go:75-112 | for sorted stamps, line i is recorded at ts_i - ts_0 and the exported rows step by min(gap, limit) |
| Logs.RecordedTimes | internal/api/ws.go:242-261 | each line is recorded by the clock before the first timestamp, then by its own timestamp, or at zero |
| Logs.MixedLogSorted | internal/api/ws.go:242-261 | a recorded log is in time order if and only if the clock readings fit before the first timestamp, timestamps never go back, and no line without one follows a later one |
| Logs.MixedLogWitness | internal/api/ws.go:242-261 | three lines recorded at times 0, 1 and 0 |
| Player.Player.constructor | internal/recorder/player.go:17-24 | a speed of zero or less is real time |
| Player.Player.Play | internal/recorder/player.go:28-49 | whenever it is cancelled or fails, the text written is that of the outputs before that event, after the waits due |
| Player.NewPlayerFrom | internal/recorder/player.go:52-60 | playback from a seek index clamped to the recording |
| Player.CutAnywhere | internal/recorder/player.go:52-60 | for any integer, the outputs before the clamped index and a playback from it are the whole text |
| Player.RunsToTheEnd | internal/recorder/player.go:28-49 | an undisturbed playback writes every output |
| Player.StopsAtFirst | internal/recorder/player.go:28-48 | playback stops at the first output whose wait is interrupted or whose write fails, and at none before |
| Player.WaitForEach | internal/recorder/player.go:30-41 | the wait for an output is the time since the event before it, of any type, over the speed; time before other events is not waited for |
| Player.WaitBounds | internal/recorder/player.go:29-47 | for n sorted outputs ending at T the waits add up to between T/speed - n and T/speed |
| Store.Store.constructor | internal/session/store.go:22-27 | a new store is empty |
| Store.Store.Create | internal/session/store.go:30-38 | refuses if and only if a positive cap is reached, else files the session; the cap is never exceeded |
| Store.Store.Get | internal/session/store.go:41-49 | finds exactly the stored session of that id |
| Store.Store.Delete | internal/session/store.go:52-56 | removes that id and nothing else |
| Store.Store.GetByContainer | internal/session/store.go:78-87 | finds a session of that container and mode if and only if there is one |
| Ttl.TTLManager.StartTTL | internal/session/ttl.go:28-42 | stops the mapped timer and arms a new one |
| Ttl.TTLManager.CancelTTL | internal/session/ttl.go:46-60 | true if and only if the mapped timer had not fired; only then is it forgotten |
| Ttl.TTLManager.Remove | internal/session/ttl.go:63-70 | stops and forgets the mapped timer |
| Ttl.StepKeeps | internal/session/ttl.go:28-70 | every call, firing and callback step keeps each timer's history consistent |
| Ttl.EvictsAtMostOnceAndNotEarly | internal/session/ttl.go:35-41 | in every run a timer calls onEvict at most once, not before its TTL has passed, and never if stopped |
| Ttl.StoppedForever | internal/session/ttl.go:28-70 | a timer whose Stop succeeded stays stopped |
| Ttl.StartAndRemoveSilence | internal/session/ttl.go:28-70 | after a start or remove the timer mapped before never calls onEvict, unless it had fired; a start leaves the new timer, a remove none |
| Ttl.CancelSilences | internal/session/ttl.go:46-60 | the same of a cancel, exactly if the timer had not fired; else nothing changes |
| Ttl.LeftAloneGoesOff | internal/session/ttl.go:35-41 | a timer left alone for its TTL can fire, call onEvict and delete its entry |
| Ttl.OnlyForgetOrphans | internal/session/ttl.go:35-41 | a step loses track of an armed timer if and only if it is a callback's delete of another timer's entry |
| Ttl.OneArmedTimerPerSession | internal/session/ttl.go:28-70 | in runs with no StartTTL inside a callback, every armed timer is its session's map entry, so there is at most one |
| Ttl.OrphanWitness | internal/session/ttl.go:28-42 | whatever else the callback does, past its own Remove: a run of the manager that ends with an armed timer CancelTTL cannot reach |
| Expiry.StepKeeps | internal/api/server.go:124-143 | with EvictSession as callback, every step of clients, expiries, deletes and callbacks keeps every armed timer of a stored session mapped |
| Expiry.CallbacksGoOn | internal/session/ttl.go:35-41 | a callback's return and delete are enabled exactly at their stage |
| Expiry.StoredTimersCanBeCancelled | internal/api/ws.go:38-61 | in every run an armed timer of a stored session is its map entry: CancelTTL reaches it and there is no other |
| Expiry.CancelDisarms | internal/api/ws.go:60-61 | when a reconnecting client has cancelled, its session is gone or has no armed timer |
| Expiry.LostTimersAreHarmless | internal/api/server.go:124-128 | an armed timer that is not the map entry belongs to a session that is never in the store again |
| Expiry.LostTimerWitness | cmd/cternal/main.go:154-158 | such a timer exists: the second client leaves after the callback evicted the session, before the callback's delete |
| Expiry.FiringLooks | internal/api/server.go:124-129 | a timer going off starts a callback that evicts the session if it is stored, and does nothing if not |
| Expiry.DeleteLooks | internal/api/server.go:538-539 | a delete request evicts the session it found |
| Expiry.EvictionGoesThrough | internal/api/server.go:138-143 | an eviction takes the session out of the timers and the store, and a callback then returns, having called onEvict once |
| Lifecycle.StepKeeps | internal/api/server.go:374-457 | every step of every create and evict handler keeps the ownership invariant |
| Lifecycle.StreamsConserved | internal/api/server.go:138-162 | in every interleaving an opened stream is in the hand of one create, owned by one stored session, or closed; a positive cap is never exceeded |
| Lifecycle.NoLeakAtRest | internal/api/server.go:138-143 | with no handler running, a stream is open exactly while a stored session owns it |
| Lifecycle.StepBalances | internal/api/server.go:440-456 | gauge, start and end notices are off by exactly what running handlers still owe |
| Lifecycle.AccountsAtRest | internal/api/server.go:138-161 | at rest every stored id has one start; the gauge is the store's size less the deletes that missed; ends are deletions plus misses |
| Lifecycle.SerialAccounts | internal/api/server.go:374-457 | handlers one at a time: the gauge is the store's size, one start per id, one end per deleted id and none for a live one, one attach session per container |
| Lifecycle.DoubleEndWitness | internal/api/server.go:124-162 | two evictions that interleave end a session twice and leave the gauge at -1 |
| Lifecycle.TwoAttachWitness | internal/api/server.go:375-438 | two creates that interleave give a container two attach sessions |
| Outcomes.CreatesSplit | internal/api/server.go:374-438 | at rest every create was answered with an existing session, failed to open, was refused at the cap, or stored a session |
| Outcomes.SaveFilesBelowCap | internal/session/store.go:30-38 | a save files its session if and only if there is no positive cap or fewer sessions than it |
| Outcomes.StoredAsAsked | internal/api/server.go:374-426 | a stored session has the container and mode of some request, and a stream if and only if its mode is exec or attach |
| Outcomes.AlwaysAStep | internal/api/server.go:374-457 | a create or evict handler that is not done always has a step |
| Outcomes.HandlersEnd | internal/api/server.go:138-162 | without new requests a run has at most the steps its handlers have left |
| Overlaps.OnlySaveDoubles | internal/api/server.go:375-438 | a step gives a container its second attach session if and only if it saves one, below the cap, while the container has one |
| Overlaps.AttachSessions | internal/api/server.go:375-438 | a run keeps one attach session per container throughout if and only if it has no such save; and it has none if no attach create looks its container up while another one for it is between its lookup and its save |
| Overlaps.RunSurplus | internal/api/server.go:124-143 | in every run a session has more evictions than it needs exactly if one started while another had yet to delete it |
| Overlaps.OverlapAccounts | internal/api/server.go:138-161 | at rest, whatever overlapped: one start per stored id; the right number of ends if and only if no eviction of that session started before another had deleted it; the gauge is right if and only if that happened to no session |
| Reconnect.UseWebSocket.constructor | frontend/src/composables/useWebSocket.ts:8-58 | using the composable connects at once |
| Reconnect.UseWebSocket.Connect | frontend/src/composables/useWebSocket.ts:14-16 | makes a socket unless stopped |
| Reconnect.UseWebSocket.OnOpen | frontend/src/composables/useWebSocket.ts:18-21 | an open resets the count |
| Reconnect.UseWebSocket.OnError | frontend/src/composables/useWebSocket.ts:40-42 | an error closes the current socket |
| Reconnect.UseWebSocket.OnClose | frontend/src/composables/useWebSocket.ts:32-38 | a close arms one timer and counts it, unless stopped or at five |
| Reconnect.UseWebSocket.OnTimer | frontend/src/composables/useWebSocket.ts:36 | the timer connects again |
| Reconnect.UseWebSocket.Disconnect | frontend/src/composables/useWebSocket.ts:51-56 | stops, clears the timer and closes the socket |
| Reconnect.StepKeeps | frontend/src/composables/useWebSocket.ts:14-58 | every event keeps the machine's invariant |
| Reconnect.ReconnectSafety | frontend/src/composables/useWebSocket.ts:14-58 | live sockets plus pending timers never exceed one; at most 1 + 5 * (opens + 1) sockets; gives up only at a count of exactly five |
| Reconnect.OpenGivesFiveTries | frontend/src/composables/useWebSocket.ts:18-38 | after any open, a run of failures is over exactly when five further sockets have been made and closed |
| Reconnect.DropIsRetried | frontend/src/composables/useWebSocket.ts:32-38 | the close of a socket that had opened always leaves a timer that makes the next, unless stopped |
| Reconnect.ErrorEndsSocket | frontend/src/composables/useWebSocket.ts:40-42 | after an error the socket can only close |
| Reconnect.ClosedForGood | frontend/src/composables/useWebSocket.ts:14-58 | a closed socket never changes again, and the opens are counted |
| Reconnect.NothingAfterDisconnect | frontend/src/composables/useWebSocket.ts:51-56 | after `disconnect` no socket is made and no timer is pending, whatever happens |
| Reconnect.ReconnectEnds | frontend/src/composables/useWebSocket.ts:32-38 | without further opens a run has at most 3 * (5 - count) + 3 events, and it is over exactly when no socket lives and no timer is pending, stopped or given up at five |
| Reconnect.UnansweredTriesSix | frontend/src/composables/useWebSocket.ts:32-38 | every run without an open or a `disconnect` makes at most six sockets, and is over exactly when the sixth has closed |
| Reconnect.Unanswered | frontend/src/composables/useWebSocket.ts:32-38 | such a run exists for each number of closed sockets up to six |
| Replay.ReplayView.StopPlay | frontend/src/views/ReplayView.vue:58-64 | clears the timer and stops |
| Replay.ReplayView.PlayFrom | frontend/src/views/ReplayView.vue:66-71 | stops, moves and plays the next output |
| Replay.ReplayView.StepPlay | frontend/src/views/ReplayView.vue:73-99 | the skipping loop finds the next output, writes it, and arms a timer if an event follows, else stops |
| Replay.ReplayView.TogglePlay | frontend/src/views/ReplayView.vue:101-107 | pauses, or plays from the seek position |
| Replay.ReplayView.OnSeek | frontend/src/views/ReplayView.vue:109-121 | stops, and shows exactly the outputs before the position |
| Replay.ReplayView.OnTimer | frontend/src/views/ReplayView.vue:95 | the timer plays on |
| Replay.NextOutput | frontend/src/views/ReplayView.vue:76-78 | the first output at or after an index, none skipped |
| Replay.TimerWaitsForGap | frontend/src/views/ReplayView.vue:93-96 | the delay times the speed is the recorded gap to the next event, or zero |
| Replay.ActionKeeps | frontend/src/views/ReplayView.vue:58-121 | every click, slider move, speed change and timer keeps the machine's invariant |
| Replay.ReplayInOrder | frontend/src/views/ReplayView.vue:58-121 | in every run a timer is pending exactly while playing; outputs since the last seek are shown in order, none skipped, and extra writes are fewer than the starts |
| Replay.PauseStops | frontend/src/views/ReplayView.vue:58-64 | a click while playing, or leaving, clears the timer and leaves screen and position alone |
| Replay.StoppedStays | frontend/src/views/ReplayView.vue:101-121 | while stopped nothing is written until the next click on play or seek |
| Replay.ChosenSpeedHolds | frontend/src/views/ReplayView.vue:93-96 | the speed in force is the one chosen last |
| Replay.PlaysOn | frontend/src/views/ReplayView.vue:73-99 | undisturbed playing takes at most one timer per event left and stops only with every output shown |
| Replay.SeekThenPlay | frontend/src/views/ReplayView.vue:109-121 | from any reachable state, seek to any position and play: the screen ends as all outputs, each exactly once |

## Left out

- Floating point: seconds, speeds and limits are exact rationals here; the original rounds to float64, so a time read back may differ by a nanosecond.
- Cast.Marshal: the error path of json.Marshal (a NaN or infinite idle limit) is not modelled; a header's `idle_time_limit` is printed to the nanosecond.
- LoadCast.LoadCast: JSON numbers too large for a float64, which the original skips, are read exactly; a missing file is not modelled; escapes are RFC 8259's, data is valid Unicode.
- Integer width: times and counters are unbounded, except that the difference of two timestamps saturates at 64 bits.
- Logs.RecordLogs: timestamp parsing is an arbitrary partial function from text to an instant; the clock `Add` reads is an arbitrary function.
- Logs.LogsPump: which branch each `select` takes is arbitrary here; `LogsPipeline` interleaves the same loop with the writer. Recordings of two log connections in a row are not time-ordered, and nothing here says so.
- Recording.Recorder.EventsSince: a negative offset panics in the original and is excluded.
- Sessions.Session.Pump: taken as one atomic loop; `Fanout` interleaves its steps with everything else. Chunks are values, so a stream that reused its read buffer is not modelled.
- Fanout and ExecPipeline: a socket write returns, with success or failure, sooner or later; a socket that failed stays failed. JSON framing of chunks is the identity.
- ExecPipeline: the flush is taken as done, with the recording as it was at some earlier moment, when a handler starts; `Fanout` has its single writes.
- Fanout: an attach handler need not return after its client leaves, since `Unsubscribe` runs only after `<-done`; `FanoutProgress.HandlerRests` says when it does. A logs handler returns if its log ends (`LogsPipeline.LogsTerminate`).
- Player.Player.Play: cancellation is looked at only where the original does, at a positive wait; elapsed real time is what was waited for, not measured.
- Lifecycle: session ids and stream handles are fresh, and a handler's logging, tracing, request validation and response are left out.
- Ttl and Expiry: that a connected session is never evicted is not claimed; a timer can be armed, or its callback under way, while another client is connected.
- Reconnect.UseWebSocket.OnClose: the two-second delay is a timer that fires at some time; messages and `send` are left out.
- Replay.ReplayView.OnSeek: the terminal element exists, as it does while the view is mounted; `events` is the recording once fetched, and before that playing stops at once.
- Replay.ReplayInOrder: pausing and resuming does rewrite the last event; the result counts those.
- The HTTP API, static files, webhooks, telemetry and auto-export: I/O.
- The Docker, Podman and Kubernetes clients and the stream demultiplexer: foreign libraries; a stream is a series of chunks ending in an error.
- The terminal size in `handleCast` and `autoExport`, `Store.List`, `Recorder.Len`, `SubscriberCount` and `SetStatus`: easy members.
- The loop and signal handling of `runPlay`, the `record` command and the remaining Vue components: user interface.
