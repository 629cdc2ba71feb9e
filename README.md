# Nomia V1-RG control surface, modelled in Dafny

Nomia is the web front end and Python back end of a small robot fleet. It
centres on the V1-RG unit. The model covers the parts of it that hold state
and logic:

- the mock and data telemetry pages, which tick on intervals, append to
  capped logs and keep sliding histories for sparklines;
- the live page's WebSocket client (connect, frame, close and reconnect,
  the glitch pulse, the key table, command payloads);
- the FastAPI back end's shared `SystemState`, its command dispatch, one
  iteration of the serial manager loop in MOCK and LIVE mode, and the
  WebSocket connection list;
- the HUD uptime counter, its two-digit formatting and the latency draw;
- the press-and-hold loading screen;
- the `useTypewriter` and `useScrambleText` hooks, the V1-RG entry page's
  type/delete loop and the smart cursor's scramble reveal;
- the dashboard and mode selector authentication flows with their
  staggered timeouts and routes;
- the fleet registry carousel's index normalisation, wrap loop, handler
  guards and deploy route.

There is one Dafny module per source file. `Text`, `BoundedLog`,
`IsoClock`, `AuthSchedule` and `Wrappers` hold the shared pieces: decimal
rendering, padding, capped-log pushes, the `HH:MM:SS` clock string, the
cumulative random delay schedule, and `Option`. Things that change in place
become classes with `modifies` clauses. Random draws, wall-clock times,
socket events and timer firings become explicit parameters or method calls.
Pure helpers become functions with lemmas about them. Methods outside any
class, such as `LiveLink.LinkLostAfterFrame`, `Dashboard.AuthenticateV1RG`,
`ModeSelector.ChooseAndWait` and `LoadingScreen.HoldUntilExit`, build a
fresh object, drive it through a whole interaction and state the end result.

## Model

| member | source | states |
|---|---|---|
| Text.Decimal | nomia-web/app/components/FixedHUD.tsx:50 | `n.toString()` is a non-empty digit string without a leading zero, and it is one character exactly when `n < 10` |
| Text.ParseDecimalOfDecimal | nomia-web/app/components/FixedHUD.tsx:50 | reading back the rendered decimal yields the number |
| Text.DecimalInjective | nomia-web/app/robots/v1-rg/data/page.tsx:54 | distinct numbers render differently |
| Text.PadStart | nomia-web/app/components/FixedHUD.tsx:50 | `padStart` gives length `max(|s|, width)`, ends with `s` and is filled in front |
| Text.ParseDecimalLeadingZeros | nomia-web/app/components/FixedHUD.tsx:50 | leading zeros do not change the value read back |
| Text.Join | nomia-web/app/robots/v1-rg/data/page.tsx:95 | joining no parts is empty and joining one part is that part |
| Text.JoinEnds | nomia-web/app/robots/v1-rg/data/page.tsx:95 | the joined string starts with the first part and ends with the last |
| Text.LowerAscii | nomia-web/app/components/FleetRegistry.tsx:210 | `toLowerCase` keeps the length and lowers each ASCII capital by 32 |
| Text.Last | nomia-web/robots/V1-RG/backend/main.py:101 | `s[-n:]` has length `min(|s|, n)` and is a suffix of `s` |
| BoundedLog.Push | nomia-web/app/robots/v1-rg/data/page.tsx:53-55 | push then shift when over the cap: the newest entry is appended and the oldest evicted only when full |
| BoundedLog.PushAllIsWindow | nomia-web/app/robots/v1-rg/mock/page.tsx:49-52 | pushing lines one by one with eviction leaves the last `cap` entries of old log + lines |
| BoundedLog.PushAllBounded | nomia-web/app/robots/v1-rg/mock/page.tsx:49-52 | the log stays within its cap and, when the lines fit, ends with exactly those lines |
| BoundedLog.PushOntoWindow | nomia-web/app/robots/v1-rg/data/page.tsx:53-55 | pushing onto a capped window is the window of the longer log |
| IsoClock.Clock | nomia-web/app/robots/v1-rg/mock/page.tsx:60 | the clock string is 8 characters, two digits per field with colons at 2 and 5, each field reading back |
| IsoClock.ReadClock | nomia-web/app/robots/v1-rg/mock/page.tsx:60 | parsing a rendered clock gives back its second count |
| IsoClock.ReadTimeOfDayOfTimeOfDay | nomia-web/app/robots/v1-rg/mock/page.tsx:60 | `toISOString().substr(11, 8)` of elapsed ms reads back as the second of the day (hours mod 24) |
| IsoClock.SplitSeconds | nomia-web/app/robots/v1-rg/mock/page.tsx:60 | hours, minutes and seconds recombine to the second count |
| MockTelemetry.StateIndex | nomia-web/app/robots/v1-rg/mock/page.tsx:43 | the state index is always one of the three states |
| MockTelemetry.StateIndexSchedule | nomia-web/app/robots/v1-rg/mock/page.tsx:43 | the index is constant within a 5000 ms slot, advances by one mod 3 per slot, and repeats every 15000 ms |
| MockTelemetry.Jitter | nomia-web/app/robots/v1-rg/mock/page.tsx:58-59 | `Math.floor(Math.random() * n)` lies in `0 .. n-1` |
| MockTelemetry.NextLogsSpec | nomia-web/app/robots/v1-rg/mock/page.tsx:47-54 | a tick keeps the log within 20; on a state change its last three entries are that state's lines (the last 20 of old + lines), otherwise the log is unchanged |
| MockTelemetry.FirstTickAppends | nomia-web/app/robots/v1-rg/mock/page.tsx:48 | with the initial index -1 the first tick always appends its state's lines |
| MockTelemetry.AppendLines | nomia-web/app/robots/v1-rg/mock/page.tsx:49-52 | the push/shift loop computes the capped append |
| MockTelemetry.TickLogs | nomia-web/app/robots/v1-rg/mock/page.tsx:47-54 | the log a tick produces is the specified next log, within the cap of 20 |
| MockTelemetry.Simulator.Tick | nomia-web/app/robots/v1-rg/mock/page.tsx:42-63 | one tick sets the state's mode, distance plus jitter below 20, temperature plus jitter below 5, the uptime string and the capped logs, and records the index |
| DataTelemetry.Sample | nomia-web/app/robots/v1-rg/data/page.tsx:44-48 | `Math.floor(Math.max(0, x))` is the floor of the reading clamped at 0 |
| DataTelemetry.DigitRunOf | nomia-web/app/robots/v1-rg/data/page.tsx:54 | the leading digit run of digits followed by a non-digit is those digits |
| DataTelemetry.SyncLineInjective | nomia-web/app/robots/v1-rg/data/page.tsx:54 | the `TELEMETRY_SYNC` line determines both readings |
| DataTelemetry.MapValueSpec | nomia-web/app/robots/v1-rg/data/page.tsx:86-88 | `mapValue` sends `inMin` to `outMin`, `inMax` to `outMax`, and is affine in between |
| DataTelemetry.ChartRange | nomia-web/app/robots/v1-rg/data/page.tsx:67-68 | distances in [0, 300] and temperatures in [30, 70] land in the chart's [0, 40] band, inverted |
| DataTelemetry.SlideSpec | nomia-web/app/robots/v1-rg/data/page.tsx:66-71 | a full 50-sample history drops its oldest sample and appends the new one |
| DataTelemetry.XAtSpec | nomia-web/app/robots/v1-rg/data/page.tsx:92 | the x coordinates run from 0 to 100, strictly increasing |
| DataTelemetry.SparklineShape | nomia-web/app/robots/v1-rg/data/page.tsx:90-98 | the path starts with `M ` and the first point; the fill is the path closed along the bottom edge |
| DataTelemetry.Simulator.Tick | nomia-web/app/robots/v1-rg/data/page.tsx:38-72 | one tick stores the clamped samples, appends the sync line to the 30-line log and slides both 50-sample histories |
| LiveLink.CommandBody | nomia-web/app/robots/v1-rg/live/page.tsx:95-102 | the payload carries the action, and the value defaults to the empty string |
| LiveLink.KeyTable | nomia-web/app/robots/v1-rg/live/page.tsx:49-53 | exactly w, s, a and d (any case) send `CMD_MOVE` with FWD, BWD, LEFT and RIGHT |
| LiveLink.KeyCaseInsensitive | nomia-web/app/robots/v1-rg/live/page.tsx:51 | capital keys send what lower-case keys send |
| LiveLink.ProgressWidth | nomia-web/app/robots/v1-rg/live/page.tsx:240 | the bar width is `dist / 5` percent, capped at 100 |
| LiveLink.Client.Connect | nomia-web/app/robots/v1-rg/live/page.tsx:68-93 | a constructed socket is recorded; a failed construction marks the link `OFFLINE` and disconnected |
| LiveLink.Client.OnOpen | nomia-web/app/robots/v1-rg/live/page.tsx:74 | opening sets connected |
| LiveLink.Client.OnMessage | nomia-web/app/robots/v1-rg/live/page.tsx:75-77 | a frame replaces the telemetry |
| LiveLink.Client.OnClose | nomia-web/app/robots/v1-rg/live/page.tsx:83-87 | the current socket closing disconnects, keeps the last frame with mode `LINK_LOST` and schedules a reconnect in 2000 ms |
| LiveLink.Client.LinkLost | nomia-web/app/robots/v1-rg/live/page.tsx:83-87 | the `onclose` handler of any socket: disconnected, mode `LINK_LOST`, one more 2000 ms reconnect |
| LiveLink.Client.EffectRerun | nomia-web/app/robots/v1-rg/live/page.tsx:33-66 | after `connected` changed, the cleanup closes the socket in `wsRef`, the new run connects again and sees the current `connected`, and the closed socket's close event then marks the link lost and schedules a reconnect |
| LiveLink.Client.FireReconnect | nomia-web/app/robots/v1-rg/live/page.tsx:86 | a due reconnect runs `connectWS` again |
| LiveLink.Client.SendCmd | nomia-web/app/robots/v1-rg/live/page.tsx:95-102 | each command posts one payload, in order |
| LiveLink.Client.KeyDown | nomia-web/app/robots/v1-rg/live/page.tsx:49-53 | a mapped key posts its move; any other key posts nothing |
| LiveLink.Client.GlitchTick | nomia-web/app/robots/v1-rg/live/page.tsx:41-46 | while the `connected` its effect run closed over is false, the 2500 ms tick raises the glitch and schedules its 150 ms clear, otherwise it does nothing; that value is the current one whenever no re-run is due |
| LiveLink.Client.GlitchClear | nomia-web/app/robots/v1-rg/live/page.tsx:44 | a due clear lowers the glitch flag |
| LiveLink.LinkLostAfterFrame | nomia-web/app/robots/v1-rg/live/page.tsx:74-87 | with the socket opened once on mount, open, frame, close: the last frame stays shown with mode `LINK_LOST`, the `glitch-active` class is on and one reconnect is pending |
| LiveLink.ConstructionFailure | nomia-web/app/robots/v1-rg/live/page.tsx:88-92 | a socket that cannot be constructed leaves the page `OFFLINE`, disconnected, with no reconnect pending and no effect re-run due |
| LiveLink.OpenCycle | nomia-web/app/robots/v1-rg/live/page.tsx:33-87 | as written, the open of the connecting socket re-runs the effect twice: both sockets are closed, two more are constructed and two reconnects scheduled, `LINK_LOST`, and the page is back where it started with a socket connecting |
| LiveLink.OpenAsWritten | nomia-web/app/robots/v1-rg/live/page.tsx:66 | as written, the first open cycle: disconnected, `LINK_LOST`, three sockets, two reconnects pending, and the third socket still connecting, so its open repeats the cycle |
| LiveLink.OpenRepeats | nomia-web/app/robots/v1-rg/live/page.tsx:66 | as written, while the server accepts every socket, `n` opens leave `2n + 1` sockets and `2n` reconnects of 2000 ms, disconnected with a socket connecting: the page never stays connected |
| LiveLink.OpenOnMount | nomia-web/app/robots/v1-rg/live/page.tsx:38 | with the socket opened by a mount-only effect, opening leaves the link connected with one socket, nothing pending and no re-run due |
| LiveLink.ModeButton | nomia-web/app/robots/v1-rg/live/page.tsx:295 | a mode button posts `CMD_MODE` with its mode as the value |
| LiveLink.FooterButtons | nomia-web/app/robots/v1-rg/live/page.tsx:295-307 | the footer posts `CMD_MODE` with `MANUAL`, `AUTO` and `DOCKING`, and `CMD_TERMINATE` with the empty default value |
| Backend.CommandLine | nomia-web/robots/V1-RG/backend/main.py:174-181 | a log line is produced exactly for the three known actions |
| Backend.DispatchCases | nomia-web/robots/V1-RG/backend/main.py:170-184 | `CMD_MODE` sets the mode and logs `MODE_SWITCH`, `CMD_MOVE` logs the move, `CMD_TERMINATE` halts and logs the stop, anything else changes nothing; the old log is always a prefix |
| Backend.MockIndex | nomia-web/robots/V1-RG/backend/main.py:81 | the mock entry index is one of the three keys |
| Backend.MockIndexChanges | nomia-web/robots/V1-RG/backend/main.py:81-88 | the entry changes from one iteration to the next exactly when `counter % 20 == 0`, which is when its lines are appended |
| Backend.MockIndexPeriod | nomia-web/robots/V1-RG/backend/main.py:81 | the schedule repeats every 60 iterations and spends 20 iterations on PATROL |
| Backend.DedupAppendSpec | nomia-web/robots/V1-RG/backend/main.py:88-91 | appending canned lines keeps the old log as a prefix, adds at most one entry per line, adds only those lines, and afterwards every line is in the log |
| Backend.DedupAppendsFresh | nomia-web/robots/V1-RG/backend/main.py:90 | a line not among the last five entries is appended |
| Backend.AppendCanned | nomia-web/robots/V1-RG/backend/main.py:89-91 | the append loop computes the deduplicated append |
| Backend.LiveFrame | nomia-web/robots/V1-RG/backend/main.py:108-117 | a LIVE frame carries the last five log entries and the offline placeholders |
| Backend.SystemState.constructor | nomia-web/robots/V1-RG/backend/main.py:27-34 | initial values, with the boot line naming the run mode |
| Backend.SystemState.SendCommand | nomia-web/robots/V1-RG/backend/main.py:170-184 | applies the dispatch to mode and logs and answers success with the action |
| Backend.SystemState.BootComplete | nomia-web/robots/V1-RG/backend/main.py:128 | startup appends `BOOT_SEQUENCE_COMPLETE` |
| Backend.SerialManager.constructor | nomia-web/robots/V1-RG/backend/main.py:75-77 | the serial manager logs `LINK_ESTABLISHED` with the run mode and starts its counter at 0 |
| Backend.SerialManager.Iterate | nomia-web/robots/V1-RG/backend/main.py:79-118 | MOCK: the entry's distance plus `distJitter` and temperature plus `tempNoise` (within 5 and below 1 of the entry), the deduplicated lines when `counter % 20 == 0`, a frame with the last 12 lines, and the counter advanced; LIVE: an offline frame and no state change |
| Backend.Startup | nomia-web/robots/V1-RG/backend/main.py:125-128 | the boot log reads INIT, COMPLETE, LINK_ESTABLISHED in that order |
| Backend.RemoveFirstSpec | nomia-web/robots/V1-RG/backend/main.py:53 | `list.remove` deletes the first occurrence, one copy fewer as a multiset |
| Backend.ConnectionManager.Connect | nomia-web/robots/V1-RG/backend/main.py:48-50 | an accepted socket is appended |
| Backend.ConnectionManager.Disconnect | nomia-web/robots/V1-RG/backend/main.py:52-53 | a listed socket is removed once; an unlisted one is reported (ValueError) and changes nothing |
| Hud.TotalDetermines | nomia-web/app/components/FixedHUD.tsx:33 | a valid uptime is determined by its total count |
| Hud.Advance | nomia-web/app/components/FixedHUD.tsx:37-43 | the cascade adds 4 to the total count, keeps the fields valid and never lowers the hours |
| Hud.UptimeCounter.Tick | nomia-web/app/components/FixedHUD.tsx:36-45 | each 40 ms tick advances the valid uptime by 4 |
| Hud.FmtSpec | nomia-web/app/components/FixedHUD.tsx:50 | `fmt` is at least two digits, reads back as `n`, pads one digit with a `0` and leaves larger numbers alone |
| Hud.Latency | nomia-web/app/components/FixedHUD.tsx:57 | the latency lies in [10, 24] |
| Hud.LatencyReachable | nomia-web/app/components/FixedHUD.tsx:57 | every value in [10, 24] is drawn for some random number |
| LoadingScreen.NextProgressSpec | nomia-web/app/components/LoadingScreen.tsx:21-25 | progress stays in [0, 100], rises by at most 1.5 while pressed and falls by at most 2 when released, strictly unless at the bound |
| LoadingScreen.FramesClosedForm | nomia-web/app/components/LoadingScreen.tsx:21-25 | after k frames held it is `min(100, p + 1.5k)`; released, `max(0, p - 2k)` |
| LoadingScreen.Screen.Press | nomia-web/app/components/LoadingScreen.tsx:56-58 | mouse or touch down presses |
| LoadingScreen.Screen.Release | nomia-web/app/components/LoadingScreen.tsx:57-59 | mouse or touch up releases |
| LoadingScreen.Screen.Frame | nomia-web/app/components/LoadingScreen.tsx:20-29 | a frame updates progress and triggers the exit once, when the progress the frame saw is 100 and it is not yet exiting |
| LoadingScreen.Screen.FireComplete | nomia-web/app/components/LoadingScreen.tsx:40-46 | the 800 ms timeout calls `onComplete` |
| LoadingScreen.HoldUntilExit | nomia-web/app/components/LoadingScreen.tsx:20-46 | holding from 0, the exit is scheduled exactly once, after 68 frames, at progress 100 |
| Typewriter.Hook.Run | nomia-web/app/hooks/useTypewriter.ts:21-46 | the effect as written: display and completion reset, the start timer scheduled when `shouldStart`, but running intervals are kept |
| Typewriter.Hook.RunWithCleanup | nomia-web/app/hooks/useTypewriter.ts:21-46 | the effect with the interval cleanup honoured: the same reset, and no interval survives |
| Typewriter.Hook.FireStart | nomia-web/app/hooks/useTypewriter.ts:31-33 | the start timeout starts a reveal interval at `i = 0` |
| Typewriter.Hook.TickInterval | nomia-web/app/hooks/useTypewriter.ts:33-41 | a tick shows `text.slice(0, i + 1)` and advances `i`; at the end it completes and stops |
| Typewriter.TypeOut | nomia-web/app/hooks/useTypewriter.ts:31-41 | tick k shows the first k + 1 characters, and the hook ends showing the whole text, complete |
| Typewriter.StaleIntervalAfterStop | nomia-web/app/hooks/useTypewriter.ts:43 | as written, an interval started before `shouldStart` turned false keeps typing into the cleared display |
| Typewriter.NoIntervalAfterStop | nomia-web/app/hooks/useTypewriter.ts:21-26 | with the cleanup honoured, stopping leaves the display empty and no interval running |
| TypeLoop.FirePreserves | nomia-web/app/robots/v1-rg/page.tsx:23-43 | every timer keeps the loop's invariant: the shown text is the first `i` characters of `PHANTOM_TERMINAL`, with `i` in range |
| TypeLoop.FireDelays | nomia-web/app/robots/v1-rg/page.tsx:31-42 | the next delay is 3000 ms at the full text, 150 ms typing or after the wipe, 50 ms deleting |
| TypeLoop.TypingRun | nomia-web/app/robots/v1-rg/page.tsx:24-29 | k typing steps show k more characters |
| TypeLoop.FirstPass | nomia-web/app/robots/v1-rg/page.tsx:46 | from the start, 16 timers spell out the whole text and then schedule the 3000 ms hold before deleting |
| TypeLoop.Loop.FireTimer | nomia-web/app/robots/v1-rg/page.tsx:23-43 | a firing updates the closure's `i`, `isDeleting`, shown text and next timer |
| Scramble.NoiseChar | nomia-web/app/hooks/useScrambleText.ts:32 | a random draw picks a character of `CHARS` |
| Scramble.Scrambled | nomia-web/app/hooks/useScrambleText.ts:25-34 | the scramble keeps the length, shows the target below the lock threshold and a `CHARS` character elsewhere |
| Scramble.FullyLocked | nomia-web/app/hooks/useScrambleText.ts:29 | with every position locked the scramble is the target |
| Scramble.LockedStaysLocked | nomia-web/app/hooks/useScrambleText.ts:29 | a locked position stays locked at any higher threshold and under any noise |
| Scramble.Progress | nomia-web/app/hooks/useScrambleText.ts:16 | progress is at most 1, and exactly 1 once the duration has elapsed |
| Scramble.ProgressMonotone | nomia-web/app/hooks/useScrambleText.ts:16 | progress never decreases with time |
| Scramble.Frame | nomia-web/app/hooks/useScrambleText.ts:16-36 | the text a tick shows keeps the target's length, and is the target itself once the duration has elapsed |
| Scramble.FrameBeforeEnd | nomia-web/app/hooks/useScrambleText.ts:18-34 | before progress reaches 1 a tick shows the scramble with `length * progress` positions locked |
| Scramble.LockedLater | nomia-web/app/hooks/useScrambleText.ts:29 | a position locked at one progress stays locked at any larger progress |
| Scramble.RevealedPrefixGrows | nomia-web/app/hooks/useScrambleText.ts:16-29 | a character revealed at one tick is still shown at every later tick, before or after the end |
| Scramble.Hook.Start | nomia-web/app/hooks/useScrambleText.ts:9-14 | the effect restarts the interval from `now` and keeps the current display |
| Scramble.Hook.Tick | nomia-web/app/hooks/useScrambleText.ts:15-36 | a tick shows the frame for the time elapsed since the start, and the interval keeps running exactly while the duration has not elapsed |
| SmartCursor.HoverTextSpec | nomia-web/app/components/SmartCursor.tsx:92-105 | hover text is the nearest `data-cursor` value, else empty, whether or not the target is interactive |
| SmartCursor.FlipScale | nomia-web/app/components/SmartCursor.tsx:69-72 | the content flips (-1) exactly when the pointer is right of 60% of the width |
| SmartCursor.Cursor.SetText | nomia-web/app/components/SmartCursor.tsx:23-47 | new text restarts the counter, and empty text blanks the display with no interval |
| SmartCursor.Cursor.Tick | nomia-web/app/components/SmartCursor.tsx:28-41 | a tick scrambles with positions below the counter locked and adds half a step; reaching the length stops on the exact text |
| SmartCursor.Reveal | nomia-web/app/components/SmartCursor.tsx:27-42 | tick k locks exactly the positions j with 2j < k, the rest come from `CHARS`, and after 2·length ticks the text is shown and the interval stopped |
| AuthSchedule.CumulativeGaps | nomia-web/app/dashboard/page.tsx:37-39 | each step comes `min` to `min + spread` ms after the previous one |
| AuthSchedule.CumulativeIncreasing | nomia-web/app/components/ModeSelector.tsx:49-51 | the step delays strictly increase, so steps appear in their declared order |
| AuthSchedule.ScheduleDues | nomia-web/app/dashboard/page.tsx:37-46 | the `forEach` schedules step k at the cumulative delay of the first k + 1 draws |
| Dashboard.Page.UnitClick | nomia-web/app/dashboard/page.tsx:21-47 | other units are ignored; V1-RG is selected, the state becomes authenticating, the log is cleared and the four steps are scheduled in order |
| Dashboard.Page.FireNext | nomia-web/app/dashboard/page.tsx:40-45 | the earliest timeout fires at its due time and leaves the later ones pending; a step timeout appends its step, the last step also schedules the mode selection 1000 ms after its own due time, and that timeout opens it |
| Dashboard.Page.Abort | nomia-web/app/dashboard/page.tsx:218-223 | Abort Sequence returns to the unit list |
| Dashboard.Page.DeployLive | nomia-web/app/dashboard/page.tsx:50-52 | navigates to `/v1-rg/live` |
| Dashboard.Page.InitiateMock | nomia-web/app/dashboard/page.tsx:54-56 | navigates to `/v1-rg/mock` |
| Dashboard.AuthenticateV1RG | nomia-web/app/dashboard/page.tsx:21-47 | from the unit list, a click and five timeouts show the four steps in order and open the mode selection, whatever the delays, exactly 1000 ms after the last step was due |
| ModeSelector.Route | nomia-web/app/components/ModeSelector.tsx:56 | live goes to `/v1-rg/live` and only live; mock goes to `/v1-rg/mock` |
| ModeSelector.StepTimersAhead | nomia-web/app/components/ModeSelector.tsx:49-52 | every step timeout is due after the choice and carries a valid step |
| ModeSelector.StepTimersSorted | nomia-web/app/components/ModeSelector.tsx:49-52 | the step timeouts fall due in step order |
| ModeSelector.DropTwice | nomia-web/app/components/ModeSelector.tsx:31 | clearing handles in two batches is clearing them together |
| ModeSelector.DropAll | nomia-web/app/components/ModeSelector.tsx:31 | clearing every recorded handle leaves nothing pending |
| ModeSelector.Selector.Close | nomia-web/app/components/ModeSelector.tsx:19-25 | closing resets state, log and mode, and leaves the timeouts running |
| ModeSelector.Selector.ChooseMode | nomia-web/app/components/ModeSelector.tsx:35-62 | the mode is recorded, the state becomes authenticating, and four step timeouts are scheduled with every handle pushed to `timeoutsRef` |
| ModeSelector.Selector.FireStep | nomia-web/app/components/ModeSelector.tsx:52-60 | a step timeout appends its step; the last step also schedules the navigation 800 ms on and pushes its handle to `timeoutsRef` |
| ModeSelector.Selector.FireNavigate | nomia-web/app/components/ModeSelector.tsx:55-57 | the navigation timeout assigns the chosen route |
| ModeSelector.FireOneStep | nomia-web/app/components/ModeSelector.tsx:52-60 | the earliest pending step timer appends its step and leaves the later ones pending, with the navigation after the last |
| ModeSelector.Selector.Unmount | nomia-web/app/components/ModeSelector.tsx:29-33 | clearing every recorded handle cancels all pending timeouts |
| ModeSelector.RunToNavigation | nomia-web/app/components/ModeSelector.tsx:50-61 | the five timeouts append the four steps in order, then navigate once |
| ModeSelector.ChooseAndWait | nomia-web/app/components/ModeSelector.tsx:35-62 | choosing and waiting shows the four steps and sends the browser to that mode's page |
| ModeSelector.CloseAfterChoosing | nomia-web/app/components/ModeSelector.tsx:19-25 | closing right after choosing shows the selection again, yet the steps reappear and the navigation still happens |
| ModeSelector.UnmountAfterChoosing | nomia-web/app/components/ModeSelector.tsx:29-33 | unmounting right after choosing leaves nothing pending and no navigation |
| FleetRegistry.Round | nomia-web/app/components/FleetRegistry.tsx:201 | `Math.round` is within half of its argument, halves rounding up |
| FleetRegistry.JsRem | nomia-web/app/components/FleetRegistry.tsx:201 | JavaScript `%` by the ring size keeps the dividend's sign and differs from it by a multiple of 3 |
| FleetRegistry.ActiveIndex | nomia-web/app/components/FleetRegistry.tsx:199-202 | the active index lies in [0, 3) and is congruent to the rounded position |
| FleetRegistry.ActiveIndexIsModulo | nomia-web/app/components/FleetRegistry.tsx:201-202 | the two-step normalisation is the floored remainder of the rounded position |
| FleetRegistry.ActiveIndexPeriodic | nomia-web/app/components/FleetRegistry.tsx:201-202 | a whole turn of the ring selects the same card |
| FleetRegistry.RelativePos | nomia-web/app/components/FleetRegistry.tsx:95-100 | after the two wrap loops the offset lies in [-1.5, 1.5] and differs from `i - position` by whole turns |
| FleetRegistry.HighlightedIsActive | nomia-web/app/components/FleetRegistry.tsx:199-202 | the card highlighted by the render loop is the active card |
| FleetRegistry.DeployRoute | nomia-web/app/components/FleetRegistry.tsx:210 | the route is `/robots/` followed by the lower-cased id |
| FleetRegistry.DeployRoutes | nomia-web/app/components/FleetRegistry.tsx:8-36 | the three units deploy to `/robots/v1-rg`, `/robots/k4zu` and `/robots/zn-01` |
| FleetRegistry.Carousel.PointerDown | nomia-web/app/components/FleetRegistry.tsx:141-148 | pointer down starts a drag at the pointer with no momentum |
| FleetRegistry.Carousel.PointerMove | nomia-web/app/components/FleetRegistry.tsx:150-165 | without a drag nothing changes; during one the target follows the pointer, the position tracks it and the drag becomes momentum |
| FleetRegistry.Carousel.PointerUp | nomia-web/app/components/FleetRegistry.tsx:167-170 | pointer up or leave ends the drag |
| FleetRegistry.Carousel.Wheel | nomia-web/app/components/FleetRegistry.tsx:177-187 | a mostly vertical wheel event changes nothing and is not consumed; otherwise it nudges target and momentum |
| FleetRegistry.Carousel.Sync | nomia-web/app/components/FleetRegistry.tsx:197-206 | the poll sets the normalised index and calls the setter only when it differs |
| FleetRegistry.Carousel.Deploy | nomia-web/app/components/FleetRegistry.tsx:208-211 | deploy pushes the active robot's route |
| FleetRegistry.SyncTwice | nomia-web/app/components/FleetRegistry.tsx:203 | two polls without movement write the index at most once |

## Left out

- Rendering, styling, GSAP, framer-motion and video crossfades are left out: they hold no stateable logic. The landing, atmosphere, scroll, blueprint, spec-sheet and custom-cursor components are not part of this model.
- The fleet carousel's spring, damping and lerp physics are left out (`requestAnimationFrame` loop, snap-to-centre and per-card transforms), and so is the data page's sine/cosine waveform. Samples enter the model as arbitrary readings passed through the clamp.
- Floating point is modelled by exact reals. Rounding of `0.003 * 1.5` and similar products, and of `mapValue`, is not captured.
- The WebSocket objects, `fetch`, JSON encoding and parsing are left out, and so are the FastAPI app itself (CORS, static mounts, `/status`, `/`, the `/ws` receive loop, the exception-swallowing `broadcast`). Socket events and commands are method calls, and posted payloads are recorded in a list.
- `robots/V1-RG/mockup/simulator.py` is not part of this model: it reads a file and posts over HTTP.
- `Math.random`, `random.randint`, `random.random` and `Date.now()` are explicit parameters. Timers are pending lists or counters whose firing is a method call; intervals are left to the caller.
- Backend.SerialManager.Iterate: the `uptime` field (`datetime.fromtimestamp(...)` in the local time zone) and `round(cpu_temp, 1)` are not modelled. The frame carries the unrounded temperature.
- MockTelemetry.Simulator.Tick requires `now >= startTime`. A clock that runs backwards would make `toISOString` throw a range error for large negative values, and that is not modelled. The source reads `Date.now()` twice, once for the state index (mock/page.tsx:43) and again in the updater for the uptime (mock/page.tsx:60); the model uses one `now` for both, so the uptime string may lag the source by the few milliseconds between the reads.
- Text.LowerAscii lowers ASCII capitals only; Unicode case mapping is not modelled.
- Scramble.Progress requires a positive duration. With a duration of 0 the source divides 0 by 0, which yields NaN, so the scramble never finishes; that case is not modelled.
- Typewriter.Hook.FireStart and Typewriter.Hook.TickInterval do not record the `startDelay` and `speed` delays; only the order of firings is modelled.
- LiveLink.Client.EffectRerun does not model the loading timer, the key listener and the glitch interval that the same cleanup tears down and the re-run sets up again; the glitch tick is a method the caller applies.
- Dashboard.Page.UnitClick requires the unit list to be showing (`IDLE`), and Dashboard.Page.Abort requires the mode selection to be showing: those are the only states in which the buttons are rendered.
- ModeSelector.Selector.ChooseMode requires the selection view (`SELECT`), the only state in which the mode buttons are rendered.
- Dashboard.Page.UnitClick and ModeSelector.Selector.ChooseMode: a click has no time of its own; its timeouts are scheduled from `clock`, the due time of the last timeout that fired, whereas the source schedules them from the moment of the click. A choice made later than that, for example after `Close` while the first choice's timeouts are still pending, is therefore not expressible.
- FleetRegistry.Carousel.PointerDown and PointerUp do not model pointer capture (`setPointerCapture`), a DOM side effect.
- Backend.ConnectionManager.Connect does not model `websocket.accept()`.

## Findings

| source | as written | input that shows it | evidently intended | confidence | as-written member | corrected member |
|---|---|---|---|---|---|---|
| nomia-web/app/hooks/useTypewriter.ts:43 | the `return () => clearInterval(interval)` inside the `setTimeout` callback is discarded, so the effect's cleanup only clears the start timeout and a running reveal interval survives a change of `text` or `shouldStart` | text "AB", start, let the start timer fire, then set `shouldStart` to false and let the old interval tick once: the display, just reset to "", shows "A" again | the cleanup also clears the running interval, so stopping leaves the display empty | not executed | Typewriter.StaleIntervalAfterStop | Typewriter.Hook.RunWithCleanup |
| nomia-web/app/robots/v1-rg/live/page.tsx:66 | the effect that calls `connectWS` lists `connected` as a dependency, so the `setConnected(true)` of `onopen` re-runs it: the cleanup closes the socket that just opened, its `onclose` sets `connected` back to false and schedules a reconnect, and that change re-runs the effect once more, whose new socket opens and starts the cycle again for as long as the server is reachable | the socket is constructed and opens | the socket is opened once on mount and stays connected until the server closes it; only the glitch interval needs `connected` | not executed | LiveLink.OpenRepeats | LiveLink.OpenOnMount |
