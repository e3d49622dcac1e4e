# Jupyter Server: a verified model of its stateful core

Jupyter Server lets browsers talk to kernels over web sockets, keeps notebooks
on disk and remembers which notebook runs on which kernel. This project models
the parts of it where state is kept over time, and proves what they are meant
to keep. Paths below are relative to the root of the `jupyter_server` repository.

- **Rate limiter** (`RateLimit.dfy`). The sliding window over iopub messages,
  with its incremental counters, its queue of pending removals and its two flags.
- **Connections to a kernel** (`Connections.dfy`, `ConnectionServer.dfy`,
  `ConnectionRuns.dfy`, `Reconnects.dfy`, `ReturningClients.dfy`,
  `OpenStreams.dfy`). Connect, nudge, replay, disconnect and the buffer for offline
  messages, as code and as the steps of an interleaving; what a client finds that
  comes back, and which streams are open.
- **Saving notebooks** (`AtomicSave.dfy`, `SaveRuns.dfy`, `Utf8.dfy`). A disk, a save
  that goes through every intermediate state of it, the reader that repairs, and
  runs of saves, failures, crashes and reads.
- **Configuration** (`ConfigLayers.dfy`, `ConfigTheorems.dfy`, `ConfigLaws.dfy`).
  The in-place merge, the removal of defaults, `get`, `set` and `update`, and the
  layers; when the loops raise, and what Python takes for equal.
- **Wire formats** (`WireFormats.dfy`). The v1 and the legacy binary framing.
- **Sessions** (`Sessions.dfy`, `SessionHandlers.dfy`, `SessionLaws.dfy`,
  `SessionOverlaps.dfy`). The session table over kernels that may die at any await,
  the requests that drive it, one by one and overlapping.
- **Activity and culling** (`Activity.dfy`). Execution state and last activity
  from iopub traffic, and the culler.
- **Names** (`Names.dfy`, `NameLaws.dfy`). Free names, names of copies, names of checkpoints.

Where the source changes fields or loops, the model is a class or a method with
a loop, proved equal to a function on values; the theorems are about those
functions, over all runs. `dafny verify dfyconfig.toml` checks everything.

## Findings

Where the code does not keep a property that one might expect, the exact
condition is proved, with a concrete case on the other side.

- A save that is cut off inside a multi-byte character is not repaired: the file
  is decoded (`fileio.py:394-452`) before the reader's `try`
  (`fileio.py:335-346`). So crash safety holds exactly at moments whose contents
  decode (`CrashSafe`), and at all of them exactly for ASCII text
  (`CrashSafeIffAscii`). A save over a missing or a broken file has no notebook to
  fall back on (`FirstSaveIsNotProtected`; exact condition in
  `SafeIffNotebookBefore`).
- Flushing and closing the file (`fileio.py:161-164`) lie outside the `try` whose
  handler restores the backup, so a save that fails there leaves the beginning of
  the new contents in the file and the old ones in the intermediate, as a crash
  does; and the next save overwrites that backup (`fileio.py:146-147`). Two failed
  saves without a crash can lose the notebook (`TwoFailedSavesLoseTheNotebook`).
  The exact condition over whole runs is in `RunsStayReadableIff`, and before a
  single save in `SaveIsSafeIff`; runs that read or complete a save after each one
  cut off are safe (`PrudentRunsLoseNothing`).
- A client that leaves before its nudge completes leaves callbacks behind. They do
  harm exactly if it was the last and messages are then to be buffered: they take
  the streams away from the offline buffer (`LeavingIsHarmlessIff`,
  `LeavingMidNudgeUnwires`; a run in `ImpatientDisconnectUnwiresTheBuffer`).
- A message can be blocked after any silence exactly if on its own it is not below
  80% of some limit that is switched on (`GetsThroughIff`; runs in `MisfitCanBeBlocked`), and messages
  of that kind are then blocked for good (`MisfitsBlockForGood`).
- `update` with a null for a default reports it as deleted, but the next `get`
  brings it back (`DeletedDefaultComesBack`; exact condition, on the files and the
  new data, in `UpdateTruthIff`).
- `True` set over a default of `1` is stored as nothing and read back as `1`
  (`TrueOverOne`; exact condition in `StrippingLosesNothing`).
- Two sessions get one path exactly when a PATCH gives one a path that is taken, or
  a POST that waited for a kernel resumes when its path has been taken
  (`RenamingKeepsPathsIff`, `CourseKeepsPathsIff`, `LogKeepsPathsIff`; the overlap
  of two POSTs in `OverlappingPostsShareAPath`). So POSTs are safe in every overlap
  exactly if their paths differ (`AlwaysUniqueIff`).
- A copy of a name without a dot is not recognised as a copy (`NoDotNoUndo`; for
  names with a dot the exact condition is in `UndoneIff`).
- The legacy framing writes its count unsigned and reads it signed; this never
  shows, because the offsets of that many parts would not fit (`RoundTripLegacy`).
- `get_session` turns its own `KeyError` into 404, so a DELETE of a session whose
  kernel is found gone answers 404 and not 410 (`SessionHandlers.Delete`).

## Model

| member | source | states |
|---|---|---|
| RateLimit.Limiter.constructor | jupyter_server/services/kernels/connection/channels.py:125-132 | A fresh limiter has an empty queue, zero counters and no flag set. |
| RateLimit.Limiter.LimitRate | jupyter_server/services/kernels/connection/channels.py:665-778 | The counters, the flags, the queue, the decision to drop and the warnings written are those of `Step`, which keeps no counters at all: after every message the counters are the length and the byte sum of the queue. |
| RateLimit.Limiter.RemoveExpired | jupyter_server/services/kernels/connection/channels.py:684-696 | Pruning drops exactly the leading entries whose time has come, and keeps the counters in step with the queue. |
| RateLimit.Limiter.CheckMsgRate | jupyter_server/services/kernels/connection/channels.py:709-739 | The message flag has hysteresis: set above the limit, cleared below 80% of it; the warning is written exactly when the flag goes up. |
| RateLimit.Limiter.CheckDataRate | jupyter_server/services/kernels/connection/channels.py:741-768 | The same for the data rate. |
| RateLimit.RateMeansCount | jupyter_server/services/kernels/connection/channels.py:709-712 | Comparing a rate with a limit is comparing a count with limit times window, for positive windows. |
| RateLimit.RunOf | jupyter_server/services/kernels/connection/channels.py:665-778 | Every sequence of arrivals has a run of the limiter. |
| RateLimit.RunIsUnique | jupyter_server/services/kernels/connection/channels.py:665-778 | And only one: a run is determined by what arrives. |
| RateLimit.QueueMatchesHistory | jupyter_server/services/kernels/connection/channels.py:684-705 | At every later time, the queue and the forwarded counted messages since the last idle reset have the same unexpired entries, whatever was pruned or dropped on the way. |
| RateLimit.QueueIsTheLiveHistory | jupyter_server/services/kernels/connection/channels.py:684-776 | With a non-decreasing clock, right after pruning the queue is exactly the forwarded counted messages since the last idle reset whose send time plus window lies ahead; the same holds after the message itself, so a dropped one leaves no trace. |
| RateLimit.ForwardedWithinLimits | jupyter_server/services/kernels/connection/channels.py:709-776 | A forwarded message leaves the whole queue within both limits that are switched on. |
| RateLimit.StretchWithinLimits | jupyter_server/services/kernels/connection/channels.py:684-776 | Rate bound for any stretch of consecutive events shorter than the window. |
| RateLimit.RateBound | jupyter_server/services/kernels/connection/channels.py:684-776 | Rate bound: any half-open interval as long as the window with no idle reset inside it contains at most limit times window forwarded counted messages and at most data limit times window forwarded stream bytes, for every arrival sequence. |
| RateLimit.FlagsNeedLimits | jupyter_server/services/kernels/connection/channels.py:712-768 | A flag is only ever set for a limit that is switched on. |
| RateLimit.AfterSilenceForwardedIff | jupyter_server/services/kernels/connection/channels.py:709-778 | After a window in which nothing was forwarded, a counted message is forwarded if and only if each limit admits it on its own: within the limit, and below 80% of it while that limit is exceeded. |
| RateLimit.BlockingIsBounded | jupyter_server/services/kernels/connection/channels.py:709-778 | Bounded blocking: after such a silence a counted message is forwarded whatever the flags, if on its own it is below 80% of each positive limit. |
| RateLimit.OffendersSetTheFlag | jupyter_server/services/kernels/connection/channels.py:712-763 | Two messages that break a limit set its flag, for the message limit and for the data limit. |
| RateLimit.MisfitCanBeBlocked | jupyter_server/services/kernels/connection/channels.py:735-778 | For every limit and every counted message that is not below 80% of it on its own, and for any silence of at least a window, a run in which the message is dropped after that silence. |
| RateLimit.GetsThroughIff | jupyter_server/services/kernels/connection/channels.py:709-778 | A counted message gets through after every silence, in every run, if and only if on its own it is below 80% of each positive limit. |
| RateLimit.MisfitsBlockForGood | jupyter_server/services/kernels/connection/channels.py:735-778 | While a limit is exceeded, messages that are not below 80% of it are all dropped until an idle reset, however long the silence; for the message limit and for the data limit. |
| RateLimit.WarningsBeginEpisodes | jupyter_server/services/kernels/connection/channels.py:712-741 | A warning is written by exactly the events that begin an exceeded episode. |
| RateLimit.OneWarningPerEpisode | jupyter_server/services/kernels/connection/channels.py:712-768 | Whenever a flag is set, one earlier event began the episode, the flag has been set ever since, and only that event wrote the warning. |
| RateLimit.IdleStatusResets | jupyter_server/services/kernels/connection/channels.py:671-682 | A status "idle" on iopub, with limiting on, is forwarded and leaves an empty queue and both flags clear, whatever the state was. |
| RateLimit.OthersPassThrough | jupyter_server/services/kernels/connection/channels.py:667-684 | Everything else that does not count (limiting off, another channel, `comm_open`, `execute_input`, any other status) is forwarded and leaves the state as it is. |
| RateLimit.EverythingElseCounts | jupyter_server/services/kernels/connection/channels.py:684-776 | Every other iopub message is judged by the rates per second with itself included, the byte length counting for a stream only; dropped, it leaves the pruned queue, and forwarded it is added for one window. |
| RateLimit.PruneKeepsTheUnexpired | jupyter_server/services/kernels/connection/channels.py:684-696 | Of a queue in order of expiry, pruning keeps exactly the entries that expire later than now. |
| RateLimit.FitsInFigures | jupyter_server/services/kernels/connection/channels.py:735-768 | The condition of `GetsThroughIff` in figures: one message, and its bytes if it is a stream, below 80% of rate limit times window. |
| ConnectionServer.Server.constructor | jupyter_server/services/kernels/kernelmanager.py:72-72 | A kernel starts with no connection, buffer or stream. |
| ConnectionServer.Server.ForEachStream | jupyter_server/services/kernels/kernelmanager.py:371-376 | A change made to each stream of a connection in turn: closing, listening, or buffering; closed streams stay as they are. |
| ConnectionServer.Server.StopBuffering | jupyter_server/services/kernels/kernelmanager.py:403-429 | The buffer goes and its streams are closed; without a buffer nothing happens. |
| ConnectionServer.Server.StartBuffering | jupyter_server/services/kernels/kernelmanager.py:339-376 | The old buffer is discarded; the given streams now feed a new empty buffer under the session key, or are closed if offline buffering is off. |
| ConnectionServer.Server.GetBuffer | jupyter_server/services/kernels/kernelmanager.py:378-401 | A matching key takes the buffer out and leaves its streams open; another key discards it. |
| ConnectionServer.Server.RegisterSession | jupyter_server/services/kernels/connection/channels.py:290-305 | The new connection takes over the registry entry of its session key; the invariant of all interleavings is kept. |
| ConnectionServer.Server.CreateStream | jupyter_server/services/kernels/connection/channels.py:150-156 | Four new streams, one for each channel. |
| ConnectionServer.Server.AttachChannels | jupyter_server/services/kernels/connection/channels.py:348-389 | Counts the connection and finds its channels: those of a buffer with its key, or new ones. |
| ConnectionServer.Server.Connect | jupyter_server/services/kernels/connection/channels.py:348-406 | Counts the connection, restores the channels of a matching buffer or makes four new ones, and lets the nudge listen on iopub unless the kernel is busy; the invariant is kept. |
| ConnectionServer.Server.NudgeDone | jupyter_server/services/kernels/connection/channels.py:366-404 | When the nudge completes: stop listening on the captured iopub stream, replay the restored buffer, subscribe all streams; the invariant is kept, also for a connection that has gone. |
| ConnectionServer.Server.ReplayBuffer | jupyter_server/services/kernels/connection/channels.py:366-374 | Each buffered message is handed over on the stream of its channel, in buffer order. |
| ConnectionServer.Server.Disconnect | jupyter_server/services/kernels/connection/channels.py:412-456 | Leaves the registry only if the entry is its own; the last connection turns its streams over to a buffer, any other closes them; the invariant is kept. |
| ConnectionRuns.TouchAllEffect | jupyter_server/services/kernels/kernelmanager.py:371-376 | A change to a list of streams changes each stream in it once, and no other. |
| ConnectionRuns.RegisterKeepsInv | jupyter_server/services/kernels/connection/channels.py:290-305 | Registering keeps the invariant. |
| ConnectionRuns.ConnectKeepsInv | jupyter_server/services/kernels/connection/channels.py:348-406 | Connecting keeps the invariant. |
| ConnectionRuns.NudgeKeepsInv | jupyter_server/services/kernels/connection/channels.py:366-404 | Completing a nudge keeps the invariant, also for a connection that has gone. |
| ConnectionRuns.DisconnectKeepsInv | jupyter_server/services/kernels/connection/channels.py:412-456 | Disconnecting keeps the invariant. |
| ConnectionRuns.StepKeepsInv | jupyter_server/services/kernels/connection/channels.py:348-456 | Every step of an interleaving keeps the invariant. |
| ConnectionRuns.LeadsKeepsInv | jupyter_server/services/kernels/connection/channels.py:348-456 | So does every run, from any state that has it. |
| ConnectionRuns.EveryRunKeepsInv | jupyter_server/services/kernels/kernelmanager.py:502-510 | Over every interleaving in which each connection connects once and later disconnects at most once: the recorded count is the number of open connections, a buffer exists only when it is zero, and the registry leads to the newest connection of each key. |
| ConnectionRuns.LateDisconnectKeepsNewer | jupyter_server/services/kernels/connection/channels.py:412-418 | In every reachable state, a late disconnect of a replaced connection leaves the registry entry of the newer one in place. |
| Reconnects.ReplayEffect | jupyter_server/services/kernels/connection/channels.py:366-374 | A replay hands over, on each channel, exactly the buffered messages of that channel in order. |
| Reconnects.AccountNudged | jupyter_server/services/kernels/connection/channels.py:233-239 | The message that a nudge consumes is the only one to go missing. |
| Reconnects.ArriveConserves | jupyter_server/services/kernels/kernelmanager.py:368-376 | An arriving message is accounted for. |
| Reconnects.DeliverConserves | jupyter_server/services/kernels/connection/channels.py:503-527 | Delivery to a buffer, a nudge or a web socket loses nothing but what the nudge consumes. |
| Reconnects.ConnectConserves | jupyter_server/services/kernels/connection/channels.py:348-389 | Restoring a buffer, discarding one or creating streams keeps every message accounted for. |
| Reconnects.NudgeGoesLive | jupyter_server/services/kernels/connection/channels.py:366-404 | When the nudge completes, each stream has handed over all it held, in order. |
| Reconnects.NudgeConserves | jupyter_server/services/kernels/connection/channels.py:366-404 | Completing a nudge keeps every message accounted for, on every connection. |
| Reconnects.DetachBuffers | jupyter_server/services/kernels/connection/channels.py:431-441 | The last disconnect leaves a buffer that all four streams feed. |
| Reconnects.SpentNudgeIsHarmless | jupyter_server/services/kernels/connection/channels.py:366-404 | The callbacks of a nudge whose connection has gone find closed streams and nothing to replay: they change no stream. |
| Reconnects.LeaverIsSpent | jupyter_server/services/kernels/connection/channels.py:446-456 | Whoever leaves without being the last, or without buffering, leaves only closed streams to the callbacks of a pending nudge. |
| Reconnects.DisconnectConserves | jupyter_server/services/kernels/connection/channels.py:412-456 | A disconnect keeps every message accounted for, unless the last connection leaves in the middle of its nudge while messages are to be buffered. |
| Reconnects.StepConserves | jupyter_server/services/kernels/connection/channels.py:348-456 | Every other step keeps conservation. |
| Reconnects.PatientRunsKeepConserving | jupyter_server/services/kernels/connection/channels.py:348-456 | So does every run of such steps, from any state that has it. |
| Reconnects.PatientRunsConserve | jupyter_server/services/kernels/connection/channels.py:348-456 | Conservation over every run from the start. |
| Reconnects.ReconnectConserves | jupyter_server/services/kernels/connection/channels.py:348-406 | Reconnect conservation, over every interleaving in which no last connection leaves mid-nudge while messages are to be buffered: once its nudge is complete, what was handed to a connection (replayed, then live) and what is still queued for it is exactly what arrived since the detach, in order, nothing lost or doubled; on iopub at most one message is missing. |
| Reconnects.BufferHoldsEverything | jupyter_server/services/kernels/kernelmanager.py:368-376 | While nobody is connected, each channel of the buffer followed by what is still queued is exactly what arrived since the detach. |
| Reconnects.SubscribesOpenStreams | jupyter_server/services/kernels/connection/channels.py:400-404 | Whichever connection they belong to, the callbacks of a nudge subscribe every stream that is open. |
| Reconnects.LeavingMidNudgeUnwires | jupyter_server/services/kernels/connection/channels.py:400-404 | In every state with conservation: if the last connection leaves mid-nudge while messages are to be buffered, the callbacks of the nudge can run next, and then the buffer is in place but all four of its streams hand their messages to the connection that has gone. |
| Reconnects.LeavingIsHarmlessIff | jupyter_server/services/kernels/connection/channels.py:412-444 | In every reachable state: after a connection leaves, buffers stay fed and complete in every continuation, if and only if it is not the last, or messages are not to be buffered, or its nudge is complete. |
| Reconnects.ImpatientDisconnectUnwiresTheBuffer | jupyter_server/services/kernels/connection/channels.py:207-214 | A concrete run of this kind, from the start. |
| ReturningClients.StepSince | jupyter_server/services/kernels/connection/channels.py:348-456 | What counts as arrived on a stream changes by arrivals, and by the last disconnect, only. |
| ReturningClients.WhileAway | jupyter_server/services/kernels/kernelmanager.py:368-376 | While nobody connects, whatever else happens, the buffer stays, and what has arrived on a stream grows by exactly the arrivals of the run. |
| ReturningClients.WhileThere | jupyter_server/services/kernels/connection/channels.py:348-456 | As long as a connection stays, whoever else comes and goes, it keeps its channels, and what has arrived on a stream grows by exactly the arrivals of the run. |
| ReturningClients.AwayIsBuffered | jupyter_server/services/kernels/kernelmanager.py:368-376 | While the client is away, each channel of the buffer followed by what is still queued is what was queued when it left followed by the arrivals of the run since. |
| ReturningClients.ReturningClientGetsAll | jupyter_server/services/kernels/connection/channels.py:348-406 | After the last connection (its nudge complete) has left, any steps without a connect, a connect with its session key, and any steps in which the new connection stays and its nudge completes: it has the streams of the old one, and what was handed to it, with what is still queued, is what was queued at the leave followed by everything that arrived in the run since; on iopub at most one message is missing. |
| ReturningClients.NewcomerGetsArrivals | jupyter_server/services/kernels/kernelmanager.py:378-401 | A connection for whose key no buffer is kept gets new streams, and is handed exactly what arrives on them after its connect, less at most one iopub message; nothing from before. |
| OpenStreams.DiscardCloses | jupyter_server/services/kernels/kernelmanager.py:403-429 | Discarding a buffer closes its four streams, leaves every other stream alone, and leaves no buffer. |
| OpenStreams.StepKeepsNoStrays | jupyter_server/services/kernels/connection/channels.py:348-456 | Every step keeps this: an open stream belongs to an open connection or to the buffer in place. |
| OpenStreams.OpenStreamsBelong | jupyter_server/services/kernels/kernelmanager.py:339-429 | In every state that any interleaving reaches, a stream is open only if it belongs to an open connection or to the buffer in place. |
| OpenStreams.OpenIff | jupyter_server/services/kernels/kernelmanager.py:339-429 | If no last connection leaves mid-nudge while messages are to be buffered, exactly those streams are open. |
| OpenStreams.ConnectStartsNudge | jupyter_server/services/kernels/connection/channels.py:352-389 | After a connect the nudge listens on iopub, unless the kernel is busy; every other stream still feeds the restored buffer, or is silent if it is new. |
| OpenStreams.DeliveryTakesOne | jupyter_server/services/kernels/connection/channels.py:503-527 | A delivery takes the first message off its stream: to the end of the buffer under its channel, to the nudge, which stops listening, or to the web socket; nothing else changes. |
| AtomicSave.NamesDiffer | jupyter_server/services/contents/fileio.py:88-99 | The file, its intermediate and its invalid name are three different names, for every path. |
| AtomicSave.FileSystem.WriteFile | jupyter_server/services/contents/fileio.py:148-155 | Opening for writing empties the file, which then grows byte by byte. |
| AtomicSave.FileSystem.ReplaceFile | jupyter_server/services/contents/fileio.py:27-29 | Renaming over a target, which fails if there is no source. |
| AtomicSave.FileSystem.AtomicWriting | jupyter_server/services/contents/fileio.py:102-171 | A save passes through exactly the disk states of `SaveTrace` (copy, truncate, write, remove; or restore on failure), for every kind of failure. |
| AtomicSave.FileSystem.WriteBody | jupyter_server/services/contents/fileio.py:148-171 | The part after the backup: write, then remove the backup; on failure move it back. |
| AtomicSave.FileSystem.ReadNotebook | jupyter_server/services/contents/fileio.py:329-363 | The reader: parse, else move the bad file aside, restore the intermediate and try again; it ends because the intermediate is used up. |
| AtomicSave.MomentsOfSave | jupyter_server/services/contents/fileio.py:144-171 | At every moment of a save over an existing file the file holds the old contents, or the new, or a cut-off beginning of the new with the whole old contents beside it. |
| AtomicSave.CutRecovers | jupyter_server/services/contents/fileio.py:349-363 | From contents that are cut off but decode, the reader recovers the old notebook, unless they are all of the new one. |
| AtomicSave.CrashSafe | jupyter_server/services/contents/fileio.py:144-171 | Crash safety: cut a save over a valid notebook off at any moment, partial writes included, and the next read gives the whole old or the whole new notebook and leaves it in the file, exactly if what the file holds at that moment can be decoded. |
| AtomicSave.AsciiIsCrashSafe | jupyter_server/services/contents/fileio.py:144-171 | For ASCII text every moment is safe. |
| AtomicSave.CutInsideCharacter | jupyter_server/services/contents/fileio.py:394-452 | For any other text there is a moment at which the contents end inside a character; decoding happens before the reader's `try`, so nothing is repaired. |
| AtomicSave.CutInsideEAcute | jupyter_server/services/contents/fileio.py:394-452 | A concrete such cut. |
| AtomicSave.CrashSafeIffAscii | jupyter_server/services/contents/fileio.py:329-363 | A save is safe at every moment if and only if its text is ASCII. |
| AtomicSave.FirstSaveIsNotProtected | jupyter_server/services/contents/fileio.py:146-147 | A first save has no backup: a crash can leave a file that is never repaired. |
| AtomicSave.NothingToRecover | jupyter_server/services/contents/fileio.py:146-147 | Over a file that holds no notebook, a crash while the backup is made leaves nothing that can be read. |
| AtomicSave.SafeIffNotebookBefore | jupyter_server/services/contents/fileio.py:146-171 | A save of ASCII text is safe at every moment if and only if there was a notebook in the file to back up: not over a missing file and not over a broken one. |
| AtomicSave.SaveEnds | jupyter_server/services/contents/fileio.py:157-171 | What a save leaves when it ends: the new contents and no intermediate; the old contents if it fails before the flush; after a failed flush the part of the new contents that was written, with the old ones in the intermediate. |
| AtomicSave.FirstSaveEnds | jupyter_server/services/contents/fileio.py:144-171 | A first save that fails leaves what was written so far, one that completes the new contents. |
| AtomicSave.SaveTouchesTwoFiles | jupyter_server/services/contents/fileio.py:144-171 | At no moment does a save touch any file but its own and the intermediate. |
| AtomicSave.BadFileIsSetAside | jupyter_server/services/contents/fileio.py:348-363 | A file that decodes and does not parse, with an intermediate beside it: afterwards its contents are in the invalid file, the intermediate has taken its place, the answer is what that holds, and no other file is touched. |
| AtomicSave.OtherwiseNothingMoves | jupyter_server/services/contents/fileio.py:335-356 | In every other case nothing is moved, and the error says whether the file is missing, not UTF-8 or no notebook. |
| AtomicSave.PathParts | jupyter_server/services/contents/fileio.py:92-98 | The two parts a path is split into: the name after the last slash, and what comes before without its trailing slashes. |
| AtomicSave.NamesBeside | jupyter_server/services/contents/fileio.py:88-99 | The intermediate file is called as the file with `.~` before its name, the invalid file with `.invalid` after it, both in its directory. |
| SaveRuns.MomentIsSafe | jupyter_server/services/contents/fileio.py:144-171 | A save over a notebook, stopped at any moment at which its contents decode, leaves the old or the new notebook in the file, or the file half saved: no beginning of it is a notebook and the old one is in the intermediate file. |
| SaveRuns.HalfSavedReads | jupyter_server/services/contents/fileio.py:329-346 | The next read of a half saved file restores the old notebook. |
| SaveRuns.MomentOverHalf | jupyter_server/services/contents/fileio.py:146-147 | From its first moment on, a save over a half saved file has overwritten the old notebook: only what is in the file itself can be read from then on. |
| SaveRuns.CrashOverHalf | jupyter_server/services/contents/fileio.py:144-171 | If at such a moment the file holds a notebook, it is the new one. |
| SaveRuns.OpStep | jupyter_server/services/contents/fileio.py:144-171 | One save, failed or complete, crash or read: the next read still gives the notebook of before or that of the save, unless the file was half saved and the operation overwrites its backup without finishing; then it gives nothing. |
| SaveRuns.RunStep | jupyter_server/services/contents/fileio.py:144-171 | The same at any point of a run. |
| SaveRuns.RunsStayReadableIff | jupyter_server/services/contents/fileio.py:144-171 | Over every run of complete saves, saves that fail anywhere (flushing included), crashes at any moment and reads, in any order: there is always a notebook for the next read, if and only if no operation overwrites the backup of a half saved file and does not finish. |
| SaveRuns.RunsKeepFrom | jupyter_server/services/contents/fileio.py:329-363 | From any point of a run that loses nothing on, a read gives the notebook of that point, or one of a save since then that completed or was cut off. |
| SaveRuns.RunsKeepNotebook | jupyter_server/services/contents/fileio.py:329-363 | Over every run that loses nothing, a read at its end gives the notebook the run began with, or one of a save that completed or was cut off. |
| SaveRuns.RunsNeverFallBack | jupyter_server/services/contents/fileio.py:329-363 | After a save that completed, such a read gives its notebook or one of a later save. |
| SaveRuns.PrudentRunsLoseNothing | jupyter_server/services/contents/fileio.py:329-346 | A run loses nothing if, after each save cut off by a crash or by a failed flush, only saves refused before their copy come before the next read or completed save. |
| SaveRuns.TwoFailedSavesLoseTheNotebook | jupyter_server/services/contents/fileio.py:157-171 | From any notebook: a save whose flush fails, then one whose writing fails, and neither the file nor the backup can be read. |
| SaveRuns.SaveIsSafeIff | jupyter_server/services/contents/fileio.py:146-171 | A save of ASCII text leaves something to read whatever fault or crash it meets, if and only if the file itself holds a notebook when it begins. |
| SaveRuns.AsciiRunsAreSane | jupyter_server/services/contents/fileio.py:144-171 | In a run with ASCII texts no crash and no failed flush cuts a character, whenever it comes. |
| SaveRuns.AsciiRunsKeepNotebook | jupyter_server/services/contents/fileio.py:329-363 | Every run with ASCII texts that reads, or completes a save, after each save that was cut off, whenever the crashes and failures come: a read gives the first notebook or one of a save that completed or was cut off, never one from before a completed save; the file itself holds it unless a save has just been cut off. |
| Utf8.DecodeEncode | jupyter_server/services/contents/fileio.py:429-444 | Decoding undoes encoding, for every text. |
| Utf8.CutChar | jupyter_server/services/contents/fileio.py:429-444 | A text cut inside a character cannot be decoded. |
| Utf8.DecodeCut | jupyter_server/services/contents/fileio.py:429-444 | What is left of a cut text, if it can be decoded, is a beginning of that text. |
| Utf8.EncodingIs | jupyter_server/services/contents/fileio.py:429-444 | The bytes of each character: how many, the leading byte, six bits of the code point in each further one, as section 3 of RFC 3629 has it. |
| Utf8.EncodeDecode | jupyter_server/services/contents/fileio.py:429-444 | Encoding undoes decoding: no overlong forms, surrogates or numbers out of range are accepted. |
| Utf8.DecodesIff | jupyter_server/services/contents/fileio.py:429-444 | Bytes decode to a text if and only if they are its encoding. |
| ConfigLayers.RecursiveUpdate | jupyter_server/config_manager.py:20-38 | The in-place loop computes the merge defined key by key, and raises exactly where a non-empty object meets a value that is not one. |
| ConfigLayers.UpdateKey | jupyter_server/config_manager.py:26-38 | One turn of that loop: recurse and prune, delete, or set. |
| ConfigLayers.OverlayAt | jupyter_server/config_manager.py:20-38 | The merge, key by key: other keys keep their values. |
| ConfigLayers.RemoveDefaults | jupyter_server/config_manager.py:41-51 | The in-place loop removes exactly the leaves equal to their defaults and the objects this empties; it raises exactly where a key is looked up in a value that does not allow it. |
| ConfigLayers.StripKey | jupyter_server/config_manager.py:45-51 | One turn of that loop. |
| ConfigLayers.SectionManager.Get | jupyter_server/config_manager.py:80-111 | `get` merges the `.d` files in order, then the root file; missing, empty and invalid files are skipped, and one that is not UTF-8 makes it raise. |
| ConfigLayers.SectionManager.Set | jupyter_server/config_manager.py:113-128 | `set` writes the data less its defaults, or raises and writes nothing. |
| ConfigLayers.SectionManager.Update | jupyter_server/config_manager.py:130-138 | `update` returns the merged data and stores it as `set` does. |
| ConfigLayers.GetLayered | jupyter_server/services/config/manager.py:24-31 | `ConfigManager.get` merges the directories from back to front. |
| ConfigTheorems.OverlayClean | jupyter_server/config_manager.py:20-38 | Merging anything into clean data (no null, no empty object at any depth) gives clean data. |
| ConfigTheorems.ReadAllClean | jupyter_server/config_manager.py:103-111 | Whatever the files hold, a result of `get` has no null and no empty object among its nested objects. |
| ConfigTheorems.StrippingLosesNothing | jupyter_server/config_manager.py:41-51 | Overlaying the defaults with the stripped data gives the same as with all of the data at every depth, up to Python's `==` on leaves; and exactly the same if and only if no leaf is equal to its default without being it. |
| ConfigTheorems.TrueOverOne | jupyter_server/config_manager.py:50-51 | A leaf that does not come back exactly: `True` over a default of 1. |
| ConfigTheorems.FitsDictNeverRaises | jupyter_server/config_manager.py:20-51 | With no object where the default is not one, neither loop raises. |
| ConfigTheorems.GetAfterSet | jupyter_server/config_manager.py:113-128 | `get` after `set(X)` is the defaults overlaid with X. |
| ConfigTheorems.CoveringOverlay | jupyter_server/config_manager.py:130-138 | Overlaying data that covers the defaults gives that data. |
| ConfigTheorems.UncoveredDiffers | jupyter_server/config_manager.py:130-138 | Data that does not cover the defaults is not what is read back. |
| ConfigTheorems.MergeKeepsCover | jupyter_server/config_manager.py:20-38 | A merge without nulls keeps covering the defaults. |
| ConfigTheorems.UpdateTruth | jupyter_server/config_manager.py:130-138 | What `update` returns has the same values as what the next `get` returns if and only if the merged data has a value wherever the defaults have one (the step to `UpdateTruthIff`); and is the very same if and only if, besides, no leaf is merely equal to its default. |
| ConfigTheorems.UnderLayer | jupyter_server/config_manager.py:20-38 | What a merge leaves at a key below an object, from what was there and what the newer layer says; a null above deletes it. |
| ConfigTheorems.SurvivesIff | jupyter_server/config_manager.py:130-138 | A default has a value after both merges, at every depth, if and only if no null in the root file or the new data deletes it. |
| ConfigTheorems.PlainIff | jupyter_server/config_manager.py:130-138 | No leaf of the result is merely equal to its default if and only if none that is given over one is. |
| ConfigTheorems.UpdateTruthIff | jupyter_server/config_manager.py:130-138 | In terms of the files and the new data, nulls included: what `update` returns has the same values as what the next `get` returns if and only if no null deletes a default; and is the very same if and only if, besides, no leaf given over a default is merely equal to it. |
| ConfigTheorems.UpdateWithoutNulls | jupyter_server/config_manager.py:130-138 | In particular the same values whenever neither the root file nor the new data holds a null and shapes agree; the very same if and only if no leaf given over a default is merely equal to it. |
| ConfigTheorems.UpdateWithoutDirectory | jupyter_server/config_manager.py:113-138 | Without a `.d` directory what `update` returns is exactly what the next `get` returns. |
| ConfigTheorems.DeletedDefaultComesBack | jupyter_server/config_manager.py:35-36 | With a null it need not: deleting a default is reported by `update` and undone by the next `get`. |
| ConfigTheorems.OverlayLookup | jupyter_server/config_manager.py:20-38 | A merge gives each leaf path the newer value if there is one, else the older. |
| ConfigTheorems.LayeredLookup | jupyter_server/services/config/manager.py:24-31 | Layers of clean sections whose shapes agree: each leaf path has the value of the first section that defines it, and the result is clean. |
| ConfigTheorems.GetLayeredLookup | jupyter_server/services/config/manager.py:24-31 | In terms of the files of the directories, whatever they hold, if they can be merged and the shapes of the merged configs agree: `ConfigManager.get` gives each leaf path the value of the first directory whose own merged config defines it, and its result is clean. |
| ConfigLaws.PyEqIff | jupyter_server/config_manager.py:50-50 | Two values are equal in Python if and only if they are the same once booleans and integers are read as floats, at every depth. |
| ConfigLaws.TextIsReadBack | jupyter_server/config_manager.py:113-128 | For data without booleans and numbers, `get` after `set` gives exactly the defaults overlaid with the data. |
| ConfigLaws.StripLookup | jupyter_server/config_manager.py:41-51 | Of the leaves of the data exactly those are stripped that are equal in Python to the default at the same path; all others stay. |
| ConfigLaws.StripPrunes | jupyter_server/config_manager.py:46-49 | No object is left empty where there is a default. |
| ConfigLaws.MergeRaisesIff | jupyter_server/config_manager.py:26-33 | A merge raises if and only if at some path a non-empty object of the new data meets a value that is not an object. |
| ConfigLaws.StripRaisesIff | jupyter_server/config_manager.py:45-47 | Stripping raises if and only if at some path an object of the data meets a default that is none, in which one of its keys cannot be looked up. |
| ConfigLaws.LookupRaisesIff | jupyter_server/config_manager.py:44-47 | A key cannot be looked up in a string it occurs in, in a list it is an item of, and in any other leaf. |
| ConfigLaws.NullsAndLeaves | jupyter_server/config_manager.py:34-38 | A null deletes what is there, a leaf replaces it, other keys stay. |
| ConfigLaws.ObjectsMerge | jupyter_server/config_manager.py:26-33 | An object is merged into the object there or into an empty one, and goes if nothing is left. |
| ConfigLaws.EmptyObjectOverLeaf | jupyter_server/config_manager.py:26-33 | An empty object over a leaf leaves it, unless the leaf is null, false, zero or empty: then it goes. |
| ConfigLaws.UnusableFilesAreSkipped | jupyter_server/config_manager.py:102-111 | Missing and empty files, and files that are not JSON, are as good as not there, wherever they come. |
| ConfigLaws.OtherFilesRaise | jupyter_server/config_manager.py:102-111 | A file that is not UTF-8, or holds JSON other than an object, makes reading raise, wherever it comes. |
| ConfigLaws.LaterFilesWin | jupyter_server/config_manager.py:102-111 | Each leaf path has the value of the last file that has one. |
| WireFormats.LittleRoundTrip | jupyter_server/services/kernels/connection/base.py:97-105 | Little-endian integers read back, for every width. |
| WireFormats.BigRoundTrip | jupyter_server/services/kernels/connection/base.py:48-68 | Big-endian integers read back, for every width. |
| WireFormats.BigSignBit | jupyter_server/services/kernels/connection/base.py:67-67 | A signed reader takes an unsigned number for a negative one exactly from half the range on. |
| WireFormats.OffsetsOrdered | jupyter_server/services/kernels/connection/base.py:92-96 | Offsets never decrease and the last is the total length. |
| WireFormats.SliceAtOffsets | jupyter_server/services/kernels/connection/base.py:109-110 | Slicing at the offsets gives the parts back. |
| WireFormats.SerializeV1 | jupyter_server/services/kernels/connection/base.py:80-100 | The frame written: the table of offsets, the channel, the parts; an overflow exactly if an offset does not fit 64 bits. |
| WireFormats.OffsetTable | jupyter_server/services/kernels/connection/base.py:97-98 | The table of offsets, or an overflow exactly if one does not fit 64 bits. |
| WireFormats.HeaderLengthV1 | jupyter_server/services/kernels/connection/base.py:94-99 | The table takes eight bytes for each offset and eight for their number, which is where the first offset points. |
| WireFormats.ReadFrameV1 | jupyter_server/services/kernels/connection/base.py:103-111 | Any such frame is read back, for every encoding of the channel that decodes. |
| WireFormats.ReadTableV1 | jupyter_server/services/kernels/connection/base.py:103-107 | The count and every offset are read back. |
| WireFormats.RoundTripV1 | jupyter_server/services/kernels/connection/base.py:80-111 | v1 round trip: every frame that can be written is read back to the same channel and the same parts, empty parts and an empty list included. |
| WireFormats.PackHeader | jupyter_server/services/kernels/connection/base.py:48-48 | Packing fails exactly if the count or an offset does not fit 32 bits. |
| WireFormats.SerializeLegacy | jupyter_server/services/kernels/connection/base.py:24-50 | The frame written: count, offsets, parts; an error exactly if the offset of the last part does not fit. |
| WireFormats.CutParts | jupyter_server/services/kernels/connection/base.py:69-72 | The loop cuts at consecutive offsets, the last part up to the end of input. |
| WireFormats.DeserializeLegacy | jupyter_server/services/kernels/connection/base.py:53-77 | The parser, errors included. |
| WireFormats.ReadTableLegacy | jupyter_server/services/kernels/connection/base.py:67-68 | The count, written unsigned and read signed, and every offset are read back. |
| WireFormats.CutGivesParts | jupyter_server/services/kernels/connection/base.py:41-72 | Cutting a frame at the offsets written gives its parts. |
| WireFormats.RoundTripLegacy | jupyter_server/services/kernels/connection/base.py:41-72 | Legacy round trip: every frame that can be written is read back to exactly its parts, the last one delimited only by the end of input. |
| WireFormats.LittleBytes | jupyter_server/services/kernels/connection/base.py:97-98 | Byte `i` of a little-endian integer is its `i`-th digit to base 256. |
| WireFormats.BigBytes | jupyter_server/services/kernels/connection/base.py:48-48 | Of a big-endian one, counted from the other end. |
| WireFormats.LittleUnread | jupyter_server/services/kernels/connection/base.py:105-107 | Reading is the inverse of writing on all bytes, too. |
| WireFormats.BigUnread | jupyter_server/services/kernels/connection/base.py:67-68 | The same for network order. |
| WireFormats.SignedIs | jupyter_server/services/kernels/connection/base.py:67-67 | A signed reading lies in the signed range and differs by nothing or by the whole range. |
| WireFormats.OffsetIs | jupyter_server/services/kernels/connection/base.py:93-96 | A part begins after all the parts before it. |
| WireFormats.FrameV1Layout | jupyter_server/services/kernels/connection/base.py:91-100 | A v1 frame byte by byte: the number of offsets and each offset, eight bytes each, lowest first; then channel and parts where the offsets say. |
| WireFormats.FrameV1End | jupyter_server/services/kernels/connection/base.py:95-99 | The last offset of a v1 frame is its length. |
| WireFormats.FrameLegacyLayout | jupyter_server/services/kernels/connection/base.py:44-50 | A legacy frame byte by byte: count and offsets, four bytes each and highest first, without the end; then the parts. |
| WireFormats.ReadableV1Iff | jupyter_server/services/kernels/connection/base.py:103-111 | A v1 frame is read if and only if it has at least two offsets and the channel between the first two is UTF-8; the error says which fails. |
| WireFormats.ReadableLegacyIff | jupyter_server/services/kernels/connection/base.py:67-73 | A legacy frame can be taken apart if and only if its count is positive as a signed number and it is long enough for that many offsets. |
| WireFormats.LegacyErrors | jupyter_server/services/kernels/connection/base.py:67-73 | Which error any other frame gives, negative counts included. |
| Sessions.SessionManager.constructor | jupyter_server/services/sessions/sessionmanager.py:213-222 | The table starts empty. |
| Sessions.SessionManager.Pause | jupyter_server/services/sessions/sessionmanager.py:343-347 | An await: any kernels may be gone afterwards, and nothing else changes. |
| Sessions.SessionManager.RowToModel | jupyter_server/services/sessions/sessionmanager.py:473-507 | A row whose kernel is gone is deleted, any other left alone. |
| Sessions.SessionManager.SessionExists | jupyter_server/services/sessions/sessionmanager.py:243-257 | Whether the first row with the path has a running kernel; if not, that row is removed. |
| Sessions.SessionManager.GetSessionByPath | jupyter_server/services/sessions/sessionmanager.py:382-431 | The first row with the path, or not found. |
| Sessions.SessionManager.GetSession | jupyter_server/services/sessions/sessionmanager.py:382-431 | The row with the id, or not found; a row whose kernel is gone is removed on the way. |
| Sessions.SessionManager.ListSessions | jupyter_server/services/sessions/sessionmanager.py:509-522 | Exactly the rows with running kernels, in table order; and only those are left in the table. |
| Sessions.SessionManager.StartKernel | jupyter_server/services/sessions/sessionmanager.py:315-348 | A kernel is started or not; the table of sessions stays as it is. |
| Sessions.SessionManager.ShutdownKernel | jupyter_server/services/sessions/sessionmanager.py:524-531 | A running kernel is gone afterwards; the answer is whether there was one. |
| Sessions.SessionManager.CreateSession | jupyter_server/services/sessions/sessionmanager.py:263-294 | A created session is the row asked for, added at the end, on the given kernel if that is running, in which case nothing is awaited, and else on a new one; on failure the table is as before. |
| Sessions.SessionManager.SaveSession | jupyter_server/services/sessions/sessionmanager.py:350-380 | The row is added and read back; if its kernel is gone by then it is removed again, and nothing else is. |
| Sessions.SessionManager.UpdateSession | jupyter_server/services/sessions/sessionmanager.py:433-467 | The row with the id changes in the columns given, and no other row changes. |
| Sessions.SessionManager.DeleteSession | jupyter_server/services/sessions/sessionmanager.py:524-531 | The row goes and its kernel is shut down, which cannot fail after a successful lookup. |
| Sessions.DeleteIdMembers | jupyter_server/services/sessions/sessionmanager.py:484-484 | A delete removes the rows with the id and keeps ids and paths unique. |
| Sessions.OnlyInsertedIds | jupyter_server/services/sessions/sessionmanager.py:375-378 | Every id in the table was inserted. |
| Sessions.LogsKeepUniqueIds | jupyter_server/services/sessions/sessionmanager.py:350-380 | Session ids stay unique in every sequence of acts, overlapping requests and kernel deaths included. |
| Sessions.ActKeepsSession | jupyter_server/services/sessions/sessionmanager.py:473-531 | Any act but its deletion or a lookup that finds its kernel gone keeps a session. |
| Sessions.LogMore | jupyter_server/services/sessions/sessionmanager.py:473-531 | One more act, with a fresh id if it inserts and a row of the table if it looks one up, gives a log again. |
| Sessions.WhySessionsDisappear | jupyter_server/services/sessions/sessionmanager.py:473-531 | An act makes a session disappear only if it is the delete of `delete_session` on its id, or looked up its row, in the table but without a running kernel. |
| Sessions.WhyAStretchRemoves | jupyter_server/services/sessions/sessionmanager.py:473-531 | The same over any stretch of a log, so over any requests, overlapping or not; the contract of each method says which sessions it may delete outright: `delete_session` its own, every other none. |
| Sessions.LiveIsPart | jupyter_server/services/sessions/sessionmanager.py:509-522 | The rows listed are those with running kernels. |
| Sessions.ListOne | jupyter_server/services/sessions/sessionmanager.py:516-522 | One step of a listing: what is seen is live, what is to come is still there. |
| Sessions.FirstWithNewId | jupyter_server/services/sessions/sessionmanager.py:375-380 | A new row is found by its id. |
| Sessions.DeleteNewId | jupyter_server/services/sessions/sessionmanager.py:484-484 | Deleting a row just added restores the table. |
| SessionHandlers.PostLook | jupyter_server/services/sessions/handlers.py:85-100 | The first step of a POST, up to its answer or to where it waits for a kernel: look the path up, and add a session only on a kernel that is running. |
| SessionHandlers.PostResume | jupyter_server/services/sessions/sessionmanager.py:289-294 | The second step: add the session on the kernel that was started, without looking the path up again; if that kernel is gone, answer an error and leave the table. |
| SessionHandlers.Post | jupyter_server/services/sessions/handlers.py:47-113 | Both steps without an overlap: a POST answers with the session of the path if it is alive; otherwise it removes a dead one, and adds one new session or answers an error; on the kernel asked for by id if that is running, with no kernel started, and otherwise on the one just started; a missing body, path or type is refused. |
| SessionHandlers.Get | jupyter_server/services/sessions/handlers.py:121-125 | A GET of one session. |
| SessionHandlers.List | jupyter_server/services/sessions/handlers.py:39-43 | A GET of all sessions. |
| SessionHandlers.Delete | jupyter_server/services/sessions/handlers.py:203-212 | A DELETE removes the row and the kernel, or answers not found, also when the lookup finds the kernel gone. |
| SessionHandlers.Patch | jupyter_server/services/sessions/handlers.py:129-199 | A PATCH changes the row as asked and answers with it, shutting down a replaced kernel; a kernel that is not running, or cannot be started, leaves the table as it was. |
| SessionHandlers.PatchRow | jupyter_server/services/sessions/handlers.py:189-199 | Update, read back, shut the old kernel down. |
| SessionHandlers.DeleteChanged | jupyter_server/services/sessions/sessionmanager.py:448-460 | An update keeps the id. |
| SessionHandlers.FirstChanged | jupyter_server/services/sessions/sessionmanager.py:448-460 | After an update the same row is found, changed. |
| SessionHandlers.NoPathLeft | jupyter_server/services/sessions/sessionmanager.py:243-257 | After a lookup that fails no session has the path. |
| SessionHandlers.PostKeepsPaths | jupyter_server/services/sessions/handlers.py:85-100 | A POST keeps ids and paths unique. |
| SessionHandlers.ServedKeepsPaths | jupyter_server/services/sessions/handlers.py:39-212 | So does every request except a PATCH of a path. |
| SessionHandlers.OneSessionPerPath | jupyter_server/services/sessions/handlers.py:85-108 | Over every run of requests that do not overlap, with kernels dying at any time and no PATCH of a path, no two sessions have the same path. |
| SessionHandlers.RenamingKeepsPathsIff | jupyter_server/services/sessions/handlers.py:142-151 | A PATCH of a path keeps paths unique if and only if no other session has the new path. |
| SessionLaws.UpdatedColumns | jupyter_server/services/sessions/sessionmanager.py:448-460 | A row takes over the columns that are given and keeps the others, its id always. |
| SessionLaws.UpdateRowByRow | jupyter_server/services/sessions/sessionmanager.py:448-460 | An update changes the rows with its id in place, and no others. |
| SessionLaws.DeleteTakesOneRow | jupyter_server/services/sessions/sessionmanager.py:524-531 | With ids unique a delete takes that one row out and leaves the others in order. |
| SessionLaws.LiveInParts | jupyter_server/services/sessions/sessionmanager.py:509-522 | Listing keeps table order. |
| SessionLaws.LiveOne | jupyter_server/services/sessions/sessionmanager.py:509-522 | A row is listed if and only if its kernel is running. |
| SessionLaws.FirstWithPathIs | jupyter_server/services/sessions/sessionmanager.py:245-250 | A lookup by path takes the first row that has it. |
| SessionLaws.FirstWithIdIs | jupyter_server/services/sessions/sessionmanager.py:382-431 | A lookup by id takes the first row that has it. |
| SessionLaws.LookupOfId | jupyter_server/services/sessions/sessionmanager.py:473-507 | While its kernel is running a row looked up by id is the answer and stays; otherwise exactly it goes, and the answer is "not found". |
| SessionLaws.LookupOfPath | jupyter_server/services/sessions/sessionmanager.py:243-257 | The same by path. |
| SessionLaws.NotebookOfPost | jupyter_server/services/sessions/handlers.py:56-62 | A POST with a `notebook` entry is one about a notebook, at the name of the entry or else at its path. |
| SessionLaws.ChangesOfPatch | jupyter_server/services/sessions/handlers.py:142-187 | The columns a PATCH changes: a path in the `notebook` entry comes first and sets the type; the kernel is the one given by id, or the one started for a name. |
| SessionOverlaps.InsertKeepsPathsIff | jupyter_server/services/sessions/sessionmanager.py:375-378 | An insert keeps paths unique if and only if its path is not taken. |
| SessionOverlaps.ChangeKeepsPathsIff | jupyter_server/services/sessions/sessionmanager.py:448-460 | An update keeps paths unique if and only if it gives the session no path that another has. |
| SessionOverlaps.ActKeepsPathsIff | jupyter_server/services/sessions/sessionmanager.py:243-531 | Any act on the table keeps paths unique if and only if it brings in no path that is taken. |
| SessionOverlaps.LogKeepsPathsIff | jupyter_server/services/sessions/sessionmanager.py:243-531 | Over every log, whatever requests overlap in it: no two sessions ever have one path if and only if no insert and no change of a path met a taken one. |
| SessionOverlaps.LookedIds | jupyter_server/services/sessions/handlers.py:85-100 | The first step of a POST adds no id but its own. |
| SessionOverlaps.DoKeepsSound | jupyter_server/services/sessions/handlers.py:85-108 | Ids stay unique in every interleaving of POSTs. |
| SessionOverlaps.LookKeepsPaths | jupyter_server/services/sessions/handlers.py:85-100 | The first step of a POST keeps paths unique; if it goes on to wait for a kernel, its path is free. |
| SessionOverlaps.MoveKeepsPathsIff | jupyter_server/services/sessions/handlers.py:85-108 | A move of an interleaving keeps paths unique, if and only if it is not a POST that resumes with its path taken, nor a PATCH to a taken path. |
| SessionOverlaps.CourseKeepsPathsIff | jupyter_server/services/sessions/handlers.py:85-108 | Over every interleaving of POSTs with anything else: no two sessions ever have one path if and only if no move is of that kind. |
| SessionOverlaps.DifferentPathsNeverClash | jupyter_server/services/sessions/handlers.py:85-108 | POSTs for different paths never give two sessions one path, however they overlap with each other, with GETs and DELETEs and with dying kernels. |
| SessionOverlaps.SamePathsCanClash | jupyter_server/services/sessions/sessionmanager.py:281-294 | Whatever the table, and whatever other POSTs there are: two POSTs for one path can overlap so that both add a session. |
| SessionOverlaps.AlwaysUniqueIff | jupyter_server/services/sessions/handlers.py:85-108 | A set of POSTs keeps paths unique in every overlap, with each other and with anything but a PATCH of a path, if and only if their paths differ. |
| SessionOverlaps.OverlappingPostsShareAPath | jupyter_server/services/sessions/sessionmanager.py:281-294 | Two POSTs for one free path, each with a kernel of its own to be started, overlap like this in every table: both look up, both wait, and both add a session. |
| SessionOverlaps.WhyRequestsRemove | jupyter_server/services/sessions/sessionmanager.py:524-531 | Over every run of requests: a session that was there before and is not after was named by a DELETE, or its kernel was gone when its row was looked up. |
| Activity.KernelManager.constructor | jupyter_server/services/kernels/kernelmanager.py:72-80 | No kernels. |
| Activity.KernelManager.StartKernel | jupyter_server/services/kernels/kernelmanager.py:215-272 | A new kernel is "starting", active now and without connections; an existing one is left alone. |
| Activity.KernelManager.StartWatchingActivity | jupyter_server/services/kernels/kernelmanager.py:586-598 | The start of watching counts as activity. |
| Activity.KernelManager.RecordActivity | jupyter_server/services/kernels/kernelmanager.py:603-634 | State and last activity after an iopub message. |
| Activity.KernelManager.MarkDead | jupyter_server/services/kernels/connection/channels.py:318-324 | A kernel that does not get ready is marked dead. |
| Activity.KernelManager.NotifyConnect | jupyter_server/services/kernels/kernelmanager.py:502-505 | A connect is counted, if the kernel is known. |
| Activity.KernelManager.NotifyDisconnect | jupyter_server/services/kernels/kernelmanager.py:507-510 | So is a disconnect. |
| Activity.KernelManager.ShutdownKernel | jupyter_server/services/kernels/kernelmanager.py:431-450 | The kernel and its count are gone. |
| Activity.KernelManager.CullKernelIfIdle | jupyter_server/services/kernels/kernelmanager.py:698-742 | A kernel is shut down exactly when its history since its start says so. |
| Activity.KernelManager.CullNext | jupyter_server/services/kernels/kernelmanager.py:688-696 | One turn of the culler; a kernel gone by then is skipped. |
| Activity.KernelManager.CullKernels | jupyter_server/services/kernels/kernelmanager.py:680-696 | Every kernel there was at the start is judged exactly once, except those gone before their turn, whatever other tasks do during a shutdown; if none is culled, none is missed and nothing changes. |
| Activity.StateNeverSet | jupyter_server/services/kernels/kernelmanager.py:620-626 | A state never set stays "starting" until an untracked status wakes it to "idle". |
| Activity.StateIsLastSet | jupyter_server/services/kernels/kernelmanager.py:617-626 | After a tracked status the state is what that status said, whatever untracked statuses follow, until the next tracked one; only "starting" gives way to "idle". |
| Activity.StateIff | jupyter_server/services/kernels/kernelmanager.py:617-626 | A kernel is busy if and only if it was last set busy, and dead if and only if it was last marked dead. |
| Activity.LastActivityIs | jupyter_server/services/kernels/kernelmanager.py:611-616 | The last activity is the time of the last event that counts: a start of watching, tracked traffic, or anything while last set busy. |
| Activity.CountIsOpen | jupyter_server/services/kernels/kernelmanager.py:502-510 | The number kept is the number of open connections, if each client connects once and disconnects at most once. |
| Activity.QuietIff | jupyter_server/services/kernels/kernelmanager.py:724-727 | With a clock that never goes back, being idle longer than the timeout means that no counted event is that recent. |
| Activity.CulledExactlyWhen | jupyter_server/services/kernels/kernelmanager.py:702-742 | A kernel is culled if and only if it was last marked dead, or nothing counted is as recent as the timeout of its kernel spec, or else of the settings, it was not last set busy unless `cull_busy`, and no client is connected unless `cull_connected`. |
| Activity.NudgesAreInvisible | jupyter_server/services/kernels/kernelmanager.py:551-584 | With the default list, a status in reply to a `kernel_info_request` changes nothing but these: it takes a kernel from "starting" to "idle", and counts as activity while the kernel is busy. |
| Activity.MessageIs | jupyter_server/services/kernels/kernelmanager.py:603-626 | What an iopub message does after any history, by its type and its parent's: whether it counts as activity, and the state it leaves. |
| Names.SplitJoins | jupyter_server/services/contents/manager.py:543-549 | The two parts of a name join to the name, and with a dot in the name the second begins with one. |
| Names.SuffixIs | jupyter_server/services/contents/manager.py:543-549 | A notebook is split before `.ipynb`, any other name before its first dot. |
| Names.DecimalsDiffer | jupyter_server/services/contents/manager.py:552-552 | Different counters have different decimals. |
| Names.CandidatesDiffer | jupyter_server/services/contents/manager.py:551-553 | No two numbered candidates are the same name. |
| Names.SeeOne | jupyter_server/services/contents/manager.py:551-555 | Each try that fails uses up one more directory entry. |
| Names.IncrementFilename | jupyter_server/services/contents/manager.py:526-556 | The search ends for every finite directory, within one more try than there are entries, at a free name with the least counter; the name itself when that is free. |
| Names.UnchangedIff | jupyter_server/services/contents/manager.py:42-42 | The substitution changes a name if and only if it contains a marker. |
| Names.WithoutBefore | jupyter_server/services/contents/manager.py:42-42 | An inserted marker does not change what matches before it. |
| Names.MarkerGoes | jupyter_server/services/contents/manager.py:42-42 | The inserted marker, with any digits, is replaced by a dot. |
| Names.UndoneIff | jupyter_server/services/contents/manager.py:674-677 | The substitution undoes the insertion if and only if neither part of the name has a marker of its own. |
| Names.SubstitutionUndoesCopy | jupyter_server/services/contents/manager.py:674-677 | For names with an extension and no marker the substitution undoes the "-Copy" insertion for every counter, multi-part extensions and dotted notebook names included. |
| Names.NoDotNoUndo | jupyter_server/services/contents/manager.py:674-677 | For names without a dot it never does. |
| Names.CopyName | jupyter_server/services/contents/manager.py:674-677 | The name of a copy is free, has the least counter, and a copy of a copy is numbered with the original. |
| Names.ExtIs | jupyter_server/services/contents/filecheckpoints.py:111-111 | What `os.path.splitext` gives: stem and extension join to the name; an extension holds one dot, its first character, after something other than dots. |
| Names.DotMovesDown | jupyter_server/services/contents/filecheckpoints.py:112-112 | The step of the proof for names without an extension: the checkpoint id gives the text a period. |
| Names.CheckpointsDoNotCollide | jupyter_server/services/contents/filecheckpoints.py:106-122 | For every checkpoint id the checkpoint file name is injective on file names, leading dots, trailing dots and missing extensions included. |
| NameLaws.DecimalSpells | jupyter_server/services/contents/manager.py:552-552 | The decimals of a number spell it, with no zero in front. |
| NameLaws.NumberedName | jupyter_server/services/contents/manager.py:551-553 | A numbered name is the name with the inserted text and the decimals of its counter between its two parts. |
| NameLaws.WhereNamesAreSplit | jupyter_server/services/contents/manager.py:543-549 | A name ending in `.ipynb` is split there, any other with a dot before its first dot. |
| NameLaws.StripIs | jupyter_server/services/contents/manager.py:544-544 | Slashes go at both ends of a path, and only there. |
| NameLaws.MarkerIs | jupyter_server/services/contents/manager.py:42-42 | A marker is `-Copy`, any digits, perhaps none, and a dot. |
| NameLaws.FirstMarkerGoes | jupyter_server/services/contents/manager.py:42-42 | Text up to the first marker stays, the marker becomes a dot, and the rest is done in the same way. |
| NameLaws.CheckpointNameIs | jupyter_server/services/contents/filecheckpoints.py:106-122 | The checkpoint name is the file name with "-" and the id before its extension. |
| NameLaws.CheckpointKeepsExtension | jupyter_server/services/contents/filecheckpoints.py:111-112 | A checkpoint has the extension of its file, for every id without a dot. |

## Left out

- HTTP plumbing, authentication, templates, the extension application, trait
  configuration and logging: no state of the kind studied here.
- The gateway client (`jupyter_server/gateway`) and the async twins of the
  synchronous code: one version is modelled.
- Reconnects.ReconnectConserves: covers nudges that complete. When a nudge is
  cancelled (after `kernel_info_timeout`, or because the kernel stopped),
  `on_iopub` may drop further messages in the turns of the event loop between
  the cancellation and the cleanup, because its future is then already done.
- ConnectionServer.Server.NudgeDone: cleanup, replay and subscribe are one step. The
  last two are callbacks of one future and run one after the other; cleanup
  touches only a stream that by then has delivered its message to the nudge.
- ConnectionServer.Server.Connect: assumes unchanged ports and a `create_stream` that
  succeeds; the transient shell and control channels of a nudge, which no client
  sees, are not modelled, and neither are kernel restarts.
- ConnectionServer.Server.Disconnect: a connection disconnects once, while its kernel lives.
- ConnectionServer.Server.RegisterSession: the stale connection is closed by a later
  disconnect step of its own, at any time or never.
- Streams in the model carry three fields that only observe (what arrived, what
  the nudge consumed, what was handed over); no step reads them to decide anything.
- RateLimit.Limiter.LimitRate: rates are reals, not floating point, and the
  window is positive (a window of zero divides by zero in the source). The log
  line "iopub messages resumed" is left out; the two stderr warnings are not.
- AtomicSave.FileSystem.AtomicWriting: symbolic links, the direct write into a
  directory that is not writable, file times and `_simple_writing` are left out.
- AtomicSave.SafeIffNotebookBefore: assumes no intermediate file left from before;
  saves with one left over are in `SaveRuns`.
- SaveRuns.RunsKeepNotebook: a crash inside the reader's own two renames is outside
  it, and so are crashes and failed flushes that cut a character in two (for those
  see `AtomicSave.CrashSafe`).
- SaveRuns.RunsStayReadableIff: assumes of the texts saved that once a beginning of
  one parses, so do all longer ones, to the same notebook.
- AtomicSave.CrashSafe: notebook parsing is a parameter; assumed of it is that no
  proper prefix of the text parses to a different notebook.
- ConfigLayers.RecursiveUpdate: dictionaries are values that the loop replaces key
  by key, so two sections sharing one list by reference are not captured, and the
  partly merged dictionary left behind by an exception is not described.
- ConfigLayers.SectionManager.Get: the files of a `.d` directory are given in
  their sorted order, each as absent, empty, not UTF-8, not JSON, or parsed JSON; the
  numbers `NaN` and `Infinity`, which Python's parser accepts, are left out.
- WireFormats.DeserializeLegacy: stops at the parts; the JSON of the first is bytes,
  and dates in headers are not extracted.
- Sessions.SessionManager.CreateSession: the records of pending sessions
  (`sessionmanager.py:47-77`) are left out, their equality not being transitive.
- Sessions.SessionManager.constructor: a database file kept from an earlier server,
  with rows in it at the start, is left out; the default database is in memory.
- Sessions.SessionManager.StartKernel: the kernel's working directory, environment
  and name play no part; whether starting succeeds is a parameter.
- SessionHandlers.Patch: waits for the old kernel's shutdown, as without pending
  kernels; nulls for columns are not modelled.
- SessionHandlers.OneSessionPerPath: about requests that do not overlap; for those
  that do, see the exact conditions of `SessionOverlaps`.
- SessionHandlers.Post: runs its two steps with only kernels dying in between; what
  other requests may do there is in `SessionOverlaps`.
- SessionHandlers.Delete: a shutdown that fails, with a `KeyError` or otherwise, is
  not modelled.
- Activity.KernelManager.MarkDead: the await before it is not modelled.
- Activity.KernelManager.CullKernels: `last_activity` is always present, as the
  kernel manager class declares it; a failing shutdown is not modelled.
- Names.IncrementFilename: the directory does not change during the search.
- Names.CopyName: only the naming part of `copy`.
- Names.CheckpointsDoNotCollide: the name within one checkpoint directory; the
  fallback to a temporary directory is left out.
