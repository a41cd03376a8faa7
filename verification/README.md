# nixlock, verified

A Dafny model of nixlock, a session locker for `ext-session-lock-v1` whose *kiosk* outputs show frames
streamed over a Unix socket while its *session* outputs show a PAM password screen. `dafny verify
dfyconfig.toml` checks everything.

Three state machines are modelled at the granularity of one atomic load, one mutex section or one system
call, and composed into one process. Every run of the process projects onto a run of the authentication
machine (`System.AuthIsItsOwnMachine`) and onto one of the kiosk server (`Serving.ServerIsItsOwnMachine`), so
what is proved of theirs holds of it, whatever clients, outputs, keys, clocks, PAM and the scheduler do.
Beside them stand the source's imperative pieces in imperative form, each proved against the functions the
machines are made of. What such a function means is stated apart from it, over the bytes, sizes, keys and
times themselves: `Wire.TakenBySize`, `Outputs.OfFirstSized`, `Retry.Spelled`, `Auth.KeyDoes`, `Auth.Judges`,
`Auth.Carries`, `Labels.LabelledNow`, `Showing.Rightful`, `Refinement.Owes`.

| files | what they model |
|---|---|
| `Words`, `Wire` | bytes and widths; HELLO, frames, a reference parser, the saturating size check |
| `Server`, `OneClient`, `Supersession`, `FrameIntegrity` | the kiosk socket: acceptor, any number of handler threads, the locker's geometry updates, interleaved |
| `LateWriters`, `Takeover`, `Races` | exactly which superseded handlers still write `latest`, whose frame is in it, and the runs in which it is nobody's |
| `Socket` | `read_exact`, `read_frames`, `write_hello`, `accept_one` as methods over short reads |
| `Auth`, `AuthMachine`, `AuthTheorems`, `Retry` | password editor, attempt queue, PAM worker, result queue, backoff clock; what can be typed and when |
| `Render`, `LockProtocol`, `Outputs`, `Lifecycle` | canvas swizzle, the compositor as judge of the protocol, the surface list and its callbacks |
| `System`, `Drawing`, `KioskCache`, `SystemTheorems` | one whole process; a repaint is a list of renders other threads can come between |
| `Lifting`, `Serving`, `Continuations`, `KioskRuns` | runs of the parts as runs of the whole process and back; the server's exact conditions for a process, whose geometry only its own outputs change |
| `Labels` | whether a surface carries what its output announced |
| `Showing`, `Disconnect` | what is on an output once a repaint is through, and what stays there when the kiosk's client goes |
| `Locker`, `Simulation`, `Refinement` | the `Locker` object with its callbacks; how objects and loops refine the machines |
| `Processes`, `Daemon` | many lockers and one socket path; the parent, pipe and child of `-f` |

In every machine an event carries the choices of its environment (a clock reading, a byte count, PAM's
reply, whether a write succeeds, what a painter returned), `Enabled` says when it can happen, `Step` what
it does. Fields that only record the past (`seen`, `published`, `cleared`, `author`, `calls`, `edits`,
`submissions`, `failures`, `touchedPath`, `snapshot`, `display`) are read by no step, with one exception:
`traffic`, the history of the lock connection, also stands for the compositor's memory.

What the environment is held to: keys arrive only while the client has a surface; `finished` and
`configure` come only as the lock protocol allows; the worker does not panic; PAM is any function of the
attempts made so far, and returns; the output registry lists an output from when it is bound; a stream
delivers its bytes in order and possibly a few at a time, and bytes buffered before a `shutdown` stay
readable.

## Where the code and its own words part

The code is modelled as it is. Six sentences about it are not true of it as they stand, and for each the
exact condition under which it holds is a theorem.

- *A superseded connection's late exit never stomps the new connection's frame* (`src/socket.rs:203-204`).
  The exit check and the clear are two steps, so a handler superseded between them does:
  `KioskRuns.LateClearHappens`. The frame in `latest` is safe if and only if no superseded handler stands at
  its clear: `Takeover.FrameIsSafeIffNoLateClear`.
- *Never a frozen last frame past a disconnect; a disconnect clears back to the clock immediately*
  (`BEHAVIORS.md:84-97`). Two things stand in its way.
  On the output: a clear repaints nothing, as only a publish is followed by a ping (`src/socket.rs:198-208`),
  so after the plainest disconnect the output still shows the frame
  (`Disconnect.PlainDisconnectLeavesTheFrame`). An output is left with a frame that is no longer there exactly
  when a handler clears while it shows one, and exactly until another frame is published, its surface is
  destroyed, or its own next render has something of the right size to put there: `Disconnect.FrozenExactly`,
  over whole runs `Disconnect.NothingFreezesIff`. The next tick's repaint is such a render:
  `Disconnect.RepaintThaws`.
  In `latest`: a superseded handler does not clear, so a frame there when another connection takes its number
  outlives its client, even when nothing fails (`KioskRuns.SilentReplacementHappens`), and for good when the
  replacement's HELLO or clone fails (`KioskRuns.FrozenFrameHappens`). A run keeps every frame to its own
  client's time if and only if no connection takes its number while a frame is there and no superseded handler
  publishes: `Takeover.FramesKeepToTheirClientIff`. How long such a frame stays is
  `Continuations.EveryTakeoverKeepsTheFrame`, `Races.EveryReplacementOrphansTheFrame` and
  `Races.FailedReplacementFreezesTheFrame`; how long `latest` stays empty after the current client's own exit
  is `Continuations.DisconnectEmptiesLatest`.
- *A superseded handler exits rather than going on writing* (`src/socket.rs:61-62`). One past its
  generation check still publishes: `Continuations.LateWritersAreTheArmed` says exactly which can, those whose
  client has not been shut out yet included, and `Supersession.LateWritesBounded` how often.
- *`0,0,0` means no kiosk output* (`src/socket.rs:51-55`). It means that nothing has refreshed the geometry
  yet: `SystemTheorems.GeometryCacheAgrees` says so exactly, and what refreshes it is
  `KioskCache.RefreshesIff`. A client of a process without a kiosk is greeted with `0,0,1` in
  `Lifting.HelloWithoutAKioskCarriesAScale`.
- *Only the accepted locker may publish the kiosk socket, and the original one remains reachable*
  (`BEHAVIORS.md:114-128`). What is said there of a rejected duplicate, that it never touches the path, is true
  (`Processes.OnlyConfirmedTouchThePath`). But unlock and exit are two steps, and so are unlink and bind, and a
  thread in between can outlive the lock and get in the next locker's way: it can take the path from it
  (`Processes.HastyUnlockCanStrandTheNextLocker`) or keep it out for good
  (`Processes.HastyUnlockCanShutTheNextLockerOut`). Only the holder touches the path from then on if and only
  if no other live process has its unlink or bind before it: `Processes.OnlyTheHolderTouchesIff`; exactly when
  the holder's socket is safe is `Processes.HolderIsSafeIff`. With unlock and exit strictly one step it always
  is: `Processes.StrictHoldersServe`.
- *Initial output discovery finishes before lock acquisition* (`src/locker.rs:809-811`). An output the
  registry lists at confirmation but that announces itself only afterwards keeps a blank label, so a kiosk
  keeps the password screen until its next change: `Labels.LateAnnouncementKeepsTheLockScreen`. Only such
  a first announcement can do this, and exactly when it says anything: `Labels.AnnouncementMislabelsIff`;
  and `Labels.EntriesAreLabelled` names the outputs it can have happened to.

A remark on arithmetic: the size a buffer is compared with is a `u32` product (`src/locker.rs:495`). It wraps
only for sizes no buffer can have, so every buffer that is committed is drawn in full
(`Render.BuffersAreFullyWritten`, `SystemTheorems.NoProtocolError`); `Render.FullyWrittenIffNoWrap` says what
rests on that.

## Model

| member | source | states |
|---|---|---|
| SystemTheorems.NoTornFrames | src/locker.rs:495-556 | in every run, a buffer a surface got from the socket is the exact BGRA swizzle of one complete frame at a frame boundary of one client's stream, of the size that surface was last configured to |
| SystemTheorems.StreamedOnKiosksOnly | src/locker.rs:497-507 | in every run, a render that commits a frame from the socket is of a surface whose role is Kiosk and whose recorded name is configured as one |
| SystemTheorems.NoProtocolError | src/locker.rs:480-557 | no run provokes a protocol error: no commit before the first configure, every commit at exactly the last configured size whatever painters return, no second surface for an output, one unlock, last and after confirmation; and every committed buffer is fully drawn, its pixels the swizzle of a client's frame or of what a painter returned |
| SystemTheorems.SingleGate | src/locker.rs:616-633 | the unlock is in the traffic if and only if the process exited with success, and then PAM accepted the latest submission, a non-empty replay of the keys since the last reset; and a success of PAM is its last word, after which the process has ended or the unlock is on its way |
| SystemTheorems.NonInterference | src/locker.rs:285-323 | two runs that agree on keys, clock and PAM replies agree on buffer, flags, counters, queues, submissions, `backoff_active` and unlock, whatever sockets, outputs, configures, signals and ticks did |
| SystemTheorems.OutputsAreCovered | src/locker.rs:386-464 | while the process runs: one entry at most per output and only for live ones, a kiosk exactly if its recorded name is configured; with the lock held one for every announced output; the compositor holds exactly these surfaces |
| SystemTheorems.ConfirmationSnapshot | src/locker.rs:650-667 | the initial list has an entry for exactly the outputs known at confirmation, session outputs first, each group in its old order |
| SystemTheorems.GeometryCacheAgrees | src/locker.rs:395-403 | the cached geometry is 0x0 at scale 0 exactly until the first refresh, and till then no kiosk entry has a size; from then on it is the width, height and scale of the first kiosk entry that has a width and a height, whatever comes before it in the list, or 0x0 at scale 1 if there is none, although adding a surface refreshes nothing |
| Outputs.ScanIsOfFirstSized | src/locker.rs:395-402 | the scan passes over every entry that is no kiosk or has no size, unsized kiosks included, takes the first that is and has, and answers 0x0 at scale 1 only if there is none |
| KioskCache.RefreshesIff | src/locker.rs:432-464 | a callback publishes a geometry exactly when it configures a listed surface, relabels an entry or removes one |
| Lifting.HelloWithoutAKioskCarriesAScale | src/socket.rs:137-138 | a run from the start, without any kiosk output configured, in which a client is greeted with 0,0,1 |
| SystemTheorems.ServerGuarantees | src/socket.rs:129-209 | the socket's own guarantees, one open client between accepts and handlers that read only their stream, survive composition with the rest of the process |
| System.AuthIsItsOwnMachine | src/locker.rs:304-323 | every run of the process projects onto a run of the authentication machine with the same state |
| System.StepKeepsSystemInv | src/locker.rs:480-823 | every step of the process keeps the joint invariant of authentication, lock, display, server, cache and commits |
| FrameIntegrity.HandlersReadTheirStream | src/socket.rs:166-202 | in every interleaving and for every split into reads, a handler has read a prefix of its own stream's frames in order, and published, in order and one for one, exactly those whose width and height are both those of the kiosk geometry at their check; `latest` holds a well-formed complete frame of some client |
| FrameIntegrity.LatestKeepsToTheSize | src/socket.rs:193-207 | in every run, a check lets a frame pass if and only if its width and height are those of the kiosk geometry just then and leaves `latest` alone; what a publish writes has exactly the width and height it was checked against; and nothing but a publish or a clear changes `latest` |
| Serving.LatestKeepsToTheSizeInStories | src/socket.rs:193-207 | the same of every step of every run of a process |
| FrameIntegrity.StepKeepsFrameInv | src/socket.rs:166-209 | each atomic step keeps every handler's buffers in step with its stream |
| OneClient.OneClientAtATime | src/socket.rs:129-155 | generations are distinct and at most `active_gen`; between accepts at most the newest connection is open, also after a failed HELLO or clone |
| Supersession.LateWritesWithinAllowance | src/socket.rs:168-209 | once superseded a handler writes `latest` at most once more, and not at all if it was at its loop head or exit check |
| Supersession.SupersededExitNeverWrites | src/socket.rs:203-206 | a handler superseded before its exit check never clears, nor writes at all |
| Supersession.LateWritesBounded | src/socket.rs:132-209 | over any run, late writes are at most as many as superseded handlers |
| LateWriters.LateWritersAreTheArmed | src/socket.rs:169-206 | of the server alone, with any geometry updates: a superseded handler writes again in some continuation if and only if it is at its clear, past its geometry check, has the rest of a plausible frame already buffered, or, while its client can still send, is in the middle of a frame that some plausible one completes |
| Takeover.FramesKeepToTheirClientIff | src/socket.rs:132-209 | over whole runs: no frame is ever in `latest` after its handler was superseded, if and only if no connection takes its number while a frame is there and no superseded handler publishes |
| Takeover.OutdatedExactly | src/socket.rs:132-209 | step by step, exactly what makes the frame in `latest` outdated and what ends it |
| Takeover.OrphanedIffOutdated | src/socket.rs:129-155 | between accepts, the frame in `latest` belongs to no open connection exactly when its handler was superseded |
| Takeover.EveryTakeoverKeepsTheFrame | src/socket.rs:132-134 | in every interleaving, a frame in `latest` when a connection takes its number is outdated from then on, and an outdated frame stays until the new handler publishes or exits or another number is taken, if and only if no handler stood at its clear |
| Takeover.FrameIsSafeIffNoLateClear | src/socket.rs:203-206 | superseded handlers never erase the frame in `latest` if and only if none of them is between exit check and clear |
| Takeover.LatestStaysEmptyIffNoLatePublish | src/socket.rs:169-198 | of the server alone, with any geometry updates: an empty `latest` stays empty until the next client publishes if and only if no superseded handler has a complete frame in reach |
| Takeover.CurrentExitEmptiesLatest | src/socket.rs:203-208 | in every reachable state the current client's clear empties `latest`, and for good under exactly that condition |
| Races.EveryReplacementOrphansTheFrame | src/socket.rs:129-155 | an accept nobody interrupts, whether it is installed, fails its HELLO or fails its clone, leaves the frame in `latest` without a client if and only if there was one, and exactly how long it stays |
| Races.FailedReplacementFreezesTheFrame | src/socket.rs:138-151 | a failed HELLO or clone leaves nobody connected and the old frame in `latest` until another client takes a number, if and only if the old handler was not at its clear |
| Races.AcceptSucceeds | src/socket.rs:129-155 | an accept nobody interrupts shuts the previous client and installs the new one with the next generation |
| Races.StreamsAFrame | src/socket.rs:166-202 | a current client that sends one whole frame of the kiosk's size gets exactly that frame into `latest`, followed by the ping |
| Serving.ServerIsItsOwnMachine | src/socket.rs:104-209 | the server's state in a run of the process is a run of the server machine on the projected steps, its geometry updates those the process's callbacks publish |
| Serving.LateWritesBoundedInStories | src/socket.rs:132-209 | in every run of a process, late writes are at most as many as superseded handlers |
| Serving.FramesKeepToTheirClientInStories | src/socket.rs:132-209 | the whole-run condition on frames outliving their client, for every run of a process |
| Serving.NoKioskNoFrames | src/socket.rs:194-198 | a process without a kiosk output never accepts a frame, whatever its clients send |
| Continuations.LateWritersAreTheArmed | src/socket.rs:169-206 | in a running process a superseded handler writes `latest` again in some continuation if and only if it is at its clear, or it is armed and the process has a kiosk output |
| Continuations.EveryTakeoverKeepsTheFrame | src/socket.rs:132-134 | the takeover condition with the continuations of a process |
| Continuations.DisconnectEmptiesLatest | src/socket.rs:203-208 | in every run of a process the current client's clear empties `latest`, which stays empty until the next client publishes if and only if the process has no kiosk output or no superseded handler had a complete frame in reach |
| Continuations.Resizes | src/locker.rs:683-712 | a running process with a kiosk output configured can be brought to any kiosk size a buffer can have |
| KioskRuns.LateClearHappens | src/socket.rs:205-206 | a run of a process from its start in which a superseded handler is about to erase a newer client's frame |
| KioskRuns.SilentReplacementHappens | src/socket.rs:129-170 | a run of a process from its start in which nothing fails and the frame of a client that is shut out stays in `latest` beside a successor that has sent nothing |
| KioskRuns.FrozenFrameHappens | src/socket.rs:138-151 | a run of a process from its start, for either failure, that ends with every connection gone, every handler finished, and a frame in `latest` |
| Disconnect.ServingRepaintsNothing | src/socket.rs:198-208 | no step of the socket's threads changes what an output shows or what is to be repainted, and only a ping makes a repaint due |
| Disconnect.ClearOwesNoRepaint | src/socket.rs:205-208 | a clear empties `latest`, ends its handler, and makes nothing due |
| Disconnect.PublishOwesARepaint | src/socket.rs:198-201 | a handler that has published does nothing before its ping, which makes a repaint due |
| Disconnect.ShownExactly | src/locker.rs:480-557 | step by step, what an output shows changes exactly when its own surface is rendered, and then to what belongs on it, or when it or the lock is destroyed |
| Disconnect.FrozenExactly | src/socket.rs:203-208 | an output is left with a frame that is no longer in `latest` exactly when a handler clears while it shows one, and exactly until another is published, its surface is destroyed, or its own render has something to put there |
| Disconnect.NothingFreezesIff | src/socket.rs:203-208 | over whole runs: no output is ever left with such a frame if and only if no handler clears while an output shows one |
| Disconnect.ShowsTheSameUntilRendered | src/locker.rs:480-557 | whatever else happens, an output shows the same until its own surface is rendered or destroyed |
| Disconnect.RepaintThaws | src/locker.rs:285-302 | a repaint such as the next tick's ends it exactly where there is content of the right size |
| Disconnect.PlainDisconnectLeavesTheFrame | src/socket.rs:198-208 | a run of a process from its start: one client connects, its frame is shown, it hangs up, its handler clears, nothing is due, and the output still shows the frame |
| Wire.SizeCheckIsExact | src/socket.rs:178-187 | for 32- and 64-bit `usize` the saturating check accepts exactly 0 < w*h*4 <= 64 MiB over the integers, and then yields that size |
| Wire.AcceptedFrameNeverWraps | src/locker.rs:495 | for an accepted frame the renderer's u32 product equals the payload length |
| Wire.HelloRoundTrip | src/socket.rs:157-164 | a client reads back the width, height and scale the HELLO was made of |
| Wire.StreamRoundTrip | src/socket.rs:166-202 | parsing the encoding of any well-formed frames gives them back |
| Wire.EveryStreamSplits | src/socket.rs:166-202 | any byte stream is its frames re-encoded and a tail that starts no frame: each frame, matching or not, occupies exactly 8 + w*h*4 bytes |
| Wire.TruncationKeepsCompleteFrames | src/socket.rs:189-193 | cut at any byte, a stream yields exactly the frames complete in the prefix |
| Wire.FirstFrameExactly | src/socket.rs:172-192 | byte by byte: two little-endian numbers of four bytes and then the pixels they announce, and no frame exactly if bytes are missing or the size is 0 or above 64 MiB |
| Socket.UnixStream.ReadExact | src/socket.rs:172-177 | fills the buffer with the next bytes however short the reads are, or meets end-of-file or a read error |
| Socket.ReadFrame | src/socket.rs:172-193 | one pass reads exactly the reference parser's first frame and consumes exactly its bytes, or leaves the loop |
| Socket.ReadFrames | src/socket.rs:166-209 | the loop ends, and what it writes to `latest`, in order, is a function of the bytes and of what it saw, never of how the bytes were cut into reads: of the frames it gets to before another generation shows, exactly those whose width and height are those of the kiosk geometry in their pass |
| Socket.AcceptedBySize | src/socket.rs:167-198 | which frames those are, over widths and heights alone |
| Socket.WriteHello | src/socket.rs:157-164 | what is sent is the letters NIXLOCK1 and then width, height and scale, each in four bytes, least significant first, and reads back as the geometry; or nothing is sent |
| Socket.SocketState.AcceptOne | src/socket.rs:129-155 | the previous client is shut, the new one greeted with the kiosk geometry, and a generation handed out only when HELLO and clone succeed |
| Socket.SocketState.SetGeometry | src/socket.rs:82-84 | replaces the geometry |
| Refinement.HandlersRunReadFrames | src/socket.rs:166-209 | in every interleaving, on all the bytes its client has sent and the geometries it saw, a handler thread publishes what the `read_frames` loop accepts, which is exactly the frames of the width and height they were checked against, and a finished one wrote what the loop writes, its closing clear included |
| Refinement.RepaintIsRedrawn | src/locker.rs:559-571 | whatever comes between its renders, a callback's repaint is the loop's result for what each surface found at its turn |
| Refinement.RepaintsNeverGoStale | src/locker.rs:559-571 | every surface still to be repainted exists, none twice, and can be rendered |
| Refinement.RepaintsExactly | src/locker.rs:559-571 | in every run each step makes exactly these repaints due: an accepted key and a refusal those of all session entries, a tick and a ping those of all entries, a configure and a relabelling that of their entry, caps lock those of the session entries; and what is due stays due until it is done |
| AuthTheorems.OneAttemptInFlight | src/locker.rs:581-646 | `verifying` holds exactly when one attempt is queued, at the worker or in the result queue; every result answers the latest submission as PAM replied; delivery cannot fail |
| AuthTheorems.SubmitGuardsNeverFire | src/locker.rs:581-593 | called from `press_key`, `submit` is never stopped by its in-flight or backoff guard |
| AuthTheorems.BufferAndView | src/locker.rs:466-478 | the lock screen is told "verifying" and "failed" exactly when they hold, and otherwise how much has been typed; both, and an active backoff, mean an empty buffer, and they exclude each other; the buffer is what the accepted edits spell, control-free, and every password prompt is answered with the password |
| AuthTheorems.FailureShowsExactly | src/locker.rs:634-645 | in every run a failure comes on display with a delivered refusal, stays through whatever else happens, and goes with the next accepted edit, and only so |
| AuthTheorems.BackoffEndsOnTime | src/locker.rs:634-643 | after the k-th failed verdict, and until the next submission, a backoff is active at a time if and only if less than min(k,5) seconds have passed by then, and while it is a key does nothing |
| AuthTheorems.UnlockMeansPamAccepted | src/auth.rs:189-204 | exit with success only after PAM accepted the latest submission, equal to the replay of its keys |
| AuthTheorems.SuccessLeadsToUnlock | src/auth.rs:189-204 | in every run PAM is not asked again after a success, and the process has ended, or that verdict is with the worker, or it is in the result queue and the worker has left its loop |
| AuthTheorems.AttemptsArePaced | src/locker.rs:634-643 | the submission after the k-th failed verdict comes at least min(k,5) seconds later, and the n-th at least 5n-15 seconds after the first, saturating counter or not |
| Retry.AlwaysRetryable | src/locker.rs:757-783 | from every reachable state with nothing in flight, from min(k,5) seconds after the k-th failure on and at any pace, Escape, any strokes but Enter, and Return submit exactly what the strokes spell, corrections applied, with repaint ticks anywhere in between |
| Retry.BackSpaceTakesTheLast | src/locker.rs:763-767 | after any text ending in a character c, typed in any number of events on top of any buffer, BackSpace leaves that buffer and the text without c; an empty buffer stays empty |
| Retry.SpelledIsReplayed | src/locker.rs:757-783 | what the accepted edits leave is what the strokes spell read from first to last: characters are stacked, BackSpace takes the topmost off, Escape all, and what is not printable nothing |
| Retry.InFlightResolves | src/locker.rs:616-645 | an attempt in flight is never stuck: its verdict comes, it unlocks if and only if PAM succeeded, with the reply given if PAM had still to be asked, and if it is the k-th failure any strokes can be submitted from min(k,5) seconds after it on |
| Retry.TextSpellsItself | src/locker.rs:774-780 | control-free text spread over any number of key events is submitted as its concatenation |
| Lifting.AuthRunsHappen | src/locker.rs:284-309 | every run of the authentication machine from the state of a process that has a surface is, repaints drained in between, a run of that process |
| Lifting.ProcessAlwaysRetryable | src/locker.rs:757-783 | in the whole process with a surface and nothing in flight the same attempt can be typed from the same time on, and submits exactly what was typed whatever renders, ticks, frames, outputs, configures or signals come between |
| Lifting.ProcessInFlightResolves | src/locker.rs:616-645 | in the whole process with a surface, that verdict can come and be delivered, the unlock is in the traffic if and only if PAM succeeded, and otherwise the next attempt can follow |
| AuthTheorems.TicksCanBeDropped | src/locker.rs:285-302 | removing every tick from a run leaves a run with the same state but for an expired `locked_until` |
| AuthTheorems.SweepIsInvisible | src/locker.rs:577-579 | the eager sweep and the lazy test answer alike at every time either can be asked |
| AuthMachine.StepKeepsInv | src/locker.rs:581-646 | every step keeps the in-flight, buffer, submission and pace invariants |
| Auth.KeyExactly | src/locker.rs:757-783 | what one key does: text goes to the end of the buffer, BackSpace takes its last character, Escape all of it, each dismissing a failure; Enter takes all of a non-empty buffer under the next id; an in-flight attempt, a backoff and any other key leave everything as it is |
| Auth.OnlyPamUnlocks | src/auth.rs:135-149 | the worker answers in order, with too many tries for that refusal, wrong for the four refusals that blame the credentials, an error for any other, and unlocked exactly where PAM succeeded, and then nothing more |
| Auth.WorkerAnswersUntilSuccess | src/auth.rs:189-204 | every attempt gets an answer unless an earlier one succeeded |
| Auth.Serve | src/auth.rs:189-204 | the worker loop answers each attempt with what PAM's reply to it means, in order and under its id, up to the first success, and to the end if there is none |
| Auth.PasswordPromptIsAnswered | src/auth.rs:76-86 | a control-free password reaches PAM's prompts as itself: a UTF-8 decoder reads it back from the answer, an ASCII one is its characters in order, and a NUL ends it |
| Auth.AnswersExactly | src/auth.rs:74-113 | for every password and prompt: a password prompt gets the password unless there is a NUL in it, messages are acknowledged, and everything else is an error |
| Auth.Utf8RoundTrip | src/auth.rs:77 | a strict UTF-8 decoder reads back every password from its bytes |
| Auth.Utf8Append | src/auth.rs:77 | text typed after other text adds its bytes after theirs |
| Render.SwizzleReordersEachPixel | src/locker.rs:548-553 | pixel by pixel, RGBA becomes BGRA in place |
| Render.SwizzleIsAnInvolution | src/locker.rs:548-553 | the swizzle loses nothing, and alpha stays |
| Render.SwizzleInto | src/locker.rs:548-553 | the loop draws the swizzle up to the shorter buffer and leaves the rest as it was |
| Render.StreamedFrameIsCommittedWhole | src/locker.rs:500-530 | a streamed frame is committed whole whatever the painters would have returned |
| Render.FullyWrittenIffNoWrap | src/locker.rs:495 | a committed buffer holds no stale byte if and only if w*h*4 fits a u32 |
| Render.BuffersAreFullyWritten | src/locker.rs:541-553 | for every size a buffer can have, no byte of a committed buffer is stale |
| Render.WrappedSizeLeavesBufferUndrawn | src/locker.rs:495 | the arithmetic alone would not ensure that: at 65536 x 16384, which no buffer can have, empty content would pass the size test |
| LockProtocol.CommitsFitTheirSurface | src/locker.rs:683-712 | in a conforming history every commit has the pixels of the last configured size |
| LockProtocol.OneUnlockAfterConfirmation | src/locker.rs:616-633 | in a conforming history the unlock is unique, last and after confirmation |
| Lifecycle.HandleKeepsDisplay | src/locker.rs:405-464 | every callback keeps the list, its coverage and its agreement with the compositor |
| Lifecycle.RenderKeepsDisplay | src/locker.rs:480-557 | rendering never raises a protocol error |
| Lifecycle.ConfirmKeepsEverything | src/locker.rs:650-667 | at confirmation the list was empty, and afterwards every known output is covered |
| Lifecycle.SessionFirstIsStablePartition | src/locker.rs:653-654 | the sort keeps the outputs, puts no kiosk before a session output, and keeps the order within each role |
| Lifecycle.ScanIsPublishedOrUnchanged | src/locker.rs:395-464 | a callback publishes the scan of the new list or leaves the scan as it was |
| Showing.KioskShowsTheLatestFrame | src/locker.rs:480-563 | in every run, once a repaint the socket's threads left alone is through, every repainted surface shows exactly: a kiosk with an accepted frame of its size that frame whole; any other what was painted if it has the right size, else the lock screen if that has, else what it showed before |
| Showing.RepaintShows | src/locker.rs:559-571 | under any interleaving each repainted surface shows what it found in `latest` and was painted at its own turn, or, when nothing fitted it, what it showed before |
| Showing.PictureOf | src/locker.rs:495-556 | the choice between frame, paint, fallback and nothing, as the pixels committed |
| Labels.EntriesAreLabelled | src/locker.rs:387-393 | in every run each surface carries the name its output has announced by now, the role configured for it and the scale announced if that is at least 1; or a blank label, and then its output was listed at confirmation, had announced nothing and has not changed since |
| Labels.AnnouncementMislabelsIff | src/locker.rs:807-815 | a first announcement leaves a wrong label if and only if the output already has a surface and the announcement says anything |
| Labels.StepKeepsLabels | src/locker.rs:432-454 | every callback keeps labels current or blank, and every one but a first announcement keeps them current |
| Labels.LateAnnouncementKeepsTheLockScreen | src/locker.rs:650-667 | an output bound before confirmation and announced as a kiosk after it keeps the session role |
| Locker.Locker.constructor | src/locker.rs:236-262 | the initial fields |
| Locker.Locker.RenderSurface | src/locker.rs:480-557 | commits what the display machine's render step commits, drawn by the in-place loop |
| Locker.Locker.RedrawAll | src/locker.rs:559-563 | repaints every entry in order |
| Locker.Locker.RedrawLocks | src/locker.rs:565-571 | repaints the session entries in order |
| Locker.Locker.Submit | src/locker.rs:581-614 | the authentication machine's submission, its attempt and its repaints, also when delivery fails |
| Locker.Locker.PressKey | src/locker.rs:757-783 | the authentication machine's key step and its repaint: text goes to the end of the buffer, BackSpace takes its last character, Escape all, Enter hands it over, and nothing else does anything |
| Locker.Locker.OnAuth | src/locker.rs:616-646 | unlock and exit, or the refusal: failed, an empty buffer, one more failure counted, keys ignored for min(count,5) seconds, and a repaint |
| Locker.Locker.OnTick | src/locker.rs:285-302 | sweeps an expired backoff, drains the signal flag, repaints everything, touches nothing else |
| Locker.Locker.RefreshKioskGeometry | src/locker.rs:395-403 | publishes the width, height and scale of the first kiosk entry that has a width and a height, or 0x0 at scale 1 |
| Locker.Locker.AddOutputSurface | src/locker.rs:405-430 | one new entry and surface, unless the output has one |
| Locker.Locker.UpdateOutputSurface | src/locker.rs:432-454 | relabels, refreshes and repaints an entry that changed, or adds a missing one |
| Locker.Locker.RemoveOutputSurface | src/locker.rs:456-464 | drops the entry and its surface and refreshes the geometry |
| Locker.Locker.NewOutput | src/locker.rs:807-815 | adds a surface only while the lock is held |
| Locker.Locker.OnLocked | src/locker.rs:650-675 | snapshots, orders and adds the outputs, and consumes socket path and notifier |
| Locker.Locker.OnConfigure | src/locker.rs:683-712 | records the size, refreshes and repaints |
| Locker.Locker.UpdateModifiers | src/locker.rs:788-793 | repaints the locks when caps lock changed |
| Simulation.Tick | src/locker.rs:285-302 | the object's tick is the process's tick followed by its renders |
| Simulation.PressAKey | src/locker.rs:757-783 | the object's key press is the process's, repaint included, and what the object sends is exactly what the process queues |
| Simulation.TakeAVerdict | src/locker.rs:616-646 | a verdict ends object and process together, or refuses and repaints both |
| Simulation.ConfigureASurface | src/locker.rs:683-712 | the object's configure is the process's, geometry and repaint included |
| Simulation.ConfirmTheLock | src/locker.rs:650-675 | the object's `locked` is the process's, and starts the socket exactly when the process does |
| Simulation.AnnounceAnOutput | src/locker.rs:807-815 | a first announcement, the same for object and process |
| Simulation.ChangeAnOutput | src/locker.rs:817-819 | a change of an output, geometry and repaint included, the same for both |
| Simulation.WithdrawAnOutput | src/locker.rs:821-823 | the removal of an output, the same for both |
| Simulation.ChangeModifiers | src/locker.rs:788-793 | caps lock, the same for both |
| Processes.OnlyConfirmedTouchThePath | src/locker.rs:658-663 | only a process the compositor confirmed ever unlinks or binds; a rejected one never has and never will |
| Processes.PathIsSafeIffNoStragglers | src/socket.rs:104-110 | whatever the others do the path keeps leading to its owner, if and only if no other process's thread still has its unlink before it |
| Processes.OnlyTheHolderTouchesIff | src/socket.rs:104-110 | while a process holds the lock nobody else unlinks or binds, whatever happens, if and only if no other live process has its unlink or bind before it |
| Processes.HolderIsSafeIff | src/socket.rs:104-127 | whatever the others do a lock holder's bind succeeds and the path then leads to it, if and only if it is on course and no other thread can unlink after it or bind before it |
| Processes.HolderServesAfterOrderlyHistory | src/socket.rs:104-127 | after any history in which nobody who gives up or loses the lock lingers with its unlink or bind undone, the holder alone touches the path, its bind succeeds, and the path leads to it until it gives up the lock, loses it or dies |
| Processes.StrictHoldersServe | src/locker.rs:622-633 | with unlock and exit strictly one step, in every run no live holder's bind fails, and a listening holder is where the path leads |
| Processes.HastyUnlockCanShutTheNextLockerOut | src/locker.rs:622-633 | a run in which a process that unlocked between its unlink and its bind keeps the path, and its live successor is unreachable for good |
| Processes.HastyUnlockCanStrandTheNextLocker | src/locker.rs:622-633 | a run in which a process that unlocked before its thread ran takes the path from its live successor |
| Daemon.ReadyMeansLocked | src/locker.rs:136-150 | the parent returns success only if the child was confirmed and already had a surface for every output it knew; the marker is never lost or garbled |
| Daemon.EndOfFileEndsTheWait | src/daemon.rs:84-94 | end-of-file without the marker means the child is leaving; at most two more steps are possible and they end in an error, unless the parent is killed |
| Daemon.ParentWaitsForTheRightThing | src/daemon.rs:76-84 | a waiting parent meets end-of-file exactly when the child is gone without notifying, reads the marker exactly when it was sent, and blocks exactly while it may still be |
| Daemon.ReadyNotifier.Notify | src/daemon.rs:58-63 | sends one marker if somebody can read it, and closes the pipe in any case |
| Daemon.WaitForReady | src/daemon.rs:76-106 | from where the blocking read has returned, each verdict exactly in its own case: success for the marker alone; the byte consumed, the read end dropped, and the child reaped exactly on end-of-file |

## Left out

- Drawing and fonts (`src/theme.rs`, `src/lockscreen.rs`): a painter returns arbitrary bytes of any length, the same type for every surface; what `AuthView` shows is stated on the fields only.
- Wayland, calloop, smithay, `wl_shm`, xkb and PAM themselves: environment steps under the assumptions above.
- `Outputs.MayHappen`: configured sizes are those a `wl_shm` buffer can have, stride, height and whole size fitting the `i32`s they are passed as; beyond them the source's casts wrap and buffer creation panics.
- Panics: `expect`, allocation failure, a poisoned mutex and a panicking PAM worker (which would leave `verifying` set, because a closed result channel is ignored).
- `active_gen` is a natural number: its wrap-around after 2^64 connections is not modelled.
- SystemTheorems.OutputsAreCovered: claims an entry for every announced output, not for one bound but still silent, which the source does not promise.
- Lifting.ProcessAlwaysRetryable: needs a surface, since keys arrive on one; that an output and its surface appear is up to the compositor.
- Takeover.OrphanedIffOutdated: a client counts as connected until the server shuts or drops its stream; one that has hung up unnoticed still counts.
- Socket.UnixStream.ReadExact: a read interrupted by a signal, which the standard library repeats, is not modelled.
- Daemon.WaitForReady: the blocking itself is in the machine of parent, pipe and child, not in the method.
- Supersession.LateWritesWithinAllowance: counts writes, not how long after the takeover the last one comes.
- Daemon.ReadyMeansLocked: `waitpid` on the parent's own child is assumed to fail at most by interruption, and the fork itself to succeed.
- `make_ping` and `set_ping`: whether a ping is there is the choice of each ping step, not remembered.
- Zeroisation of memory; the model says only when the buffer is empty.
- Diagnostics, configuration, argument parsing, `--check-auth`, environment variables, socket path resolution, Nix modules and checks: plumbing.
