# mdview live-reload core in Dafny

mdview renders one or more Markdown files in a browser tab. It keeps the tab
up to date by polling the files, and it exits when the tab goes away. This
project models the bookkeeping behind that in `main.go`, with the goroutines,
timers, locks and HTTP handlers stripped away. What is left is pure functions
and small state machines:

- **Source joining** (module `SourceJoin`, `join.dfy`). The document is built
  by appending the sources in argument order. Two line feeds go in front of a
  source whenever the bytes gathered so far are non-empty. At startup, the
  first unreadable file aborts with that file's argument index. On refresh,
  unreadable files are skipped. `Join` is the loop as written. `JoinSpec` is
  an independent reference: leading empty sources are skipped, and every later
  source comes after a separator.
- **Poll-based change detection** (module `ChangeDetector`, `watch.dfy`).
  `Baseline` builds the map from absolute path to modification time.
  `filepath.Abs` and `os.Stat` are passed in as functions. `Tick` is one
  poller tick, with no visiting order. `TickInOrder` is the range loop itself,
  and it is proved to equal `Tick` for every order in which Go might visit the
  map.
- **Client registry and coalescing notify** (module `ClientRegistry`,
  `registry.dfy`). The registry maps each client to a one-slot `bool`: true
  means a reload signal is waiting. The operations are subscribe, unsubscribe,
  notify (a non-blocking send to every client) and consume (the handler's
  receive).
- **Disconnect monitor** (module `DisconnectMonitor`, `monitor.dfy`). This is
  the goroutine that first waits for a client count above zero, then waits
  for a zero count, then closes `disconnectCh`. It is a four-phase machine
  stepped by samples of (client count, context cancelled).
- **Composition** (module `LiveReload`, `livereload.dfy`). `Start` installs
  the document, the watch set and an empty registry. `Poll` is one tick of
  `watchFiles`: it replaces the document and notifies clients only when the
  tick reports a change.

Each locked region of the program is treated as one atomic step. Times are
integers, and only their order matters. Bytes are a `newtype` over `0..255`.

## Model

| member | source | states |
|---|---|---|
| SourceJoin.LoadSources | main.go:98-108 | Startup succeeds exactly when every argument was read, and then the document is the join of all contents. Otherwise the error is the index of the first unreadable argument, and every earlier argument was read. |
| SourceJoin.Readable | main.go:388-391 | The readable sources are at most as many as the arguments, and exactly as many if and only if every read succeeded. In that case they are the read contents, position by position. |
| SourceJoin.ReadableCons | main.go:388-391 | Seen from the front, a successful read contributes its contents ahead of the readable rest, and a failed read contributes nothing. So the kept sources are the successful reads in argument order. |
| SourceJoin.RefreshSources | main.go:386-396 | On refresh, the document is the join of only the readable sources, in their original order. Unreadable sources are omitted entirely. |
| SourceJoin.JoinMatchesSpec | main.go:104-107 | The accumulate-and-test loop equals the reference join: leading empty sources add nothing, and each source after the first non-empty one comes after one "\n\n". |
| SourceJoin.JoinEmptyIff | main.go:104-107 | The joined document is empty if and only if every source is empty. |
| SourceJoin.JoinSingle | main.go:104-107 | A single source is returned unchanged. |
| SourceJoin.JoinTwoHeadings | main.go:104-107 | "# A" and "# B" join to "# A\n\n# B". |
| SourceJoin.LeadingEmptySourceIgnored | main.go:104-105 | An empty source in front adds no separator and no bytes. |
| SourceJoin.JoinFromFirstSource | main.go:104-107 | There is no leading separator: a non-empty first source starts the document, and each later source follows its own separator. |
| SourceJoin.JoinLength | main.go:104-107 | With a non-empty first source, the document holds all source bytes plus two bytes per later source. |
| SourceJoin.EmptyMiddleSourceKeepsSeparators | main.go:392-395 | An empty source after a non-empty one still contributes its separator, because the test is on the accumulated bytes. |
| SourceJoin.RefreshAgreesWithStartup | main.go:386-396 | When every read succeeds, refresh and startup produce the same document. |
| SourceJoin.RefreshSkipsMissingMiddle | main.go:387-396 | If the second of three sources is unreadable, refresh yields the first and third joined by one separator, while startup fails at argument 1. |
| ChangeDetector.Baseline | main.go:352-363 | The watch set is exactly the absolute paths of arguments whose Abs and Stat both succeed, and each path's recorded time is its stat time. |
| ChangeDetector.Advance | main.go:379-382 | A recorded time never decreases. It changes if and only if a successful stat shows a strictly later time, and then it takes that time. |
| ChangeDetector.Tick | main.go:373-383 | A tick keeps the key set. Times never decrease. A recorded time changes only on a successful stat that is strictly later, and then takes that time; a failed or not-later stat leaves the entry alone. The tick reports changed if and only if some watched path stats strictly later. An unchanged tick returns the same map. |
| ChangeDetector.TickInOrder | main.go:374-383 | For every order in which the range loop visits the keys, the loop's map and changed flag equal the order-free tick. |
| ChangeDetector.TicksKeepWatchSet | main.go:368-383 | However many ticks run, no path is ever added or removed, and no recorded time ever decreases. |
| ChangeDetector.UnwatchablePathNeverWatched | main.go:353-363 | A path whose Stat fails at startup for every argument resolving to it is never watched, whatever later ticks see. |
| ChangeDetector.BaselineFirstTickQuiet | main.go:362-383 | A first tick that sees the baseline times reports no change and keeps the map, so startup raises no spurious change. |
| ChangeDetector.LaterModificationDetected | main.go:379-381 | A stat strictly after the recorded time is reported as a change and recorded. |
| ClientRegistry.Empty | main.go:38 | The initial registry is valid and has no clients. |
| ClientRegistry.Subscribe | main.go:314-317 | A fresh client joins with an empty slot. Everyone else is untouched, and the count grows by one. |
| ClientRegistry.Unsubscribe | main.go:319-323 | Exactly that client is removed, and the others keep their slots. The count drops by one if the client was registered. Deleting an absent client changes nothing. |
| ClientRegistry.Notify | main.go:340-349 | After notify, every registered client has a pending signal. Membership and count are unchanged. |
| ClientRegistry.Consume | main.go:331 | A receive succeeds if and only if the client's slot holds a signal. It then empties that slot and nothing else. |
| ClientRegistry.NotifyCoalesces | main.go:343-347 | A second notify on full slots changes nothing: signals coalesce and do not queue. |
| ClientRegistry.NotifyThenConsumeOnce | main.go:340-349 | After notify, each registered client can receive once, and a second receive finds the slot empty. |
| ClientRegistry.SubscribeUnsubscribe | main.go:314-323 | A subscribe followed by the matching unsubscribe restores the registered set. |
| ClientRegistry.Step | main.go:314-349 | Every registry event keeps identifiers fresh. Only connects and disconnects change membership. |
| ClientRegistry.CountTracksRegistrations | main.go:314-323 | Over any event sequence, the count rises by at most one per connect and falls by at most one per disconnect. |
| DisconnectMonitor.Step | main.go:160-192 | Closed and returned monitors stay put. A monitor never returns to the first loop once it has left it. In the second loop, the channel closes if and only if the sample is zero; it never closes from the first loop. A positive sample is exactly what moves the first loop to the second. The monitor returns only on a cancelled sample, and a cancelled sample always moves a live monitor on. |
| DisconnectMonitor.StoppedOnlyIfCancelled | main.go:170-188 | Over any run of samples, the monitor can end up returned without firing only if some sample saw the context cancelled. |
| DisconnectMonitor.MonitorFiresIff | main.go:159-192 | disconnectCh closes if and only if some sample saw a client, a later sample saw none, and no sample checked for cancellation before that zero sample was cancelled. The sample that first saw a client is not checked, and neither is the zero sample. Samples before the first client must all be uncancelled, as must every positive sample after it. |
| DisconnectMonitor.DrainPhaseFires | main.go:176-191 | The second loop closes the channel if and only if some zero sample comes before any cancelled sample that saw clients. |
| DisconnectMonitor.NeverFiresWithoutClient | main.go:161-175 | If no sample ever sees a client, the monitor never closes the channel: it is still waiting, or it has returned because some sample saw cancellation. |
| DisconnectMonitor.AwaitingDrainSawClient | main.go:161-169 | The second phase is reached only after some sample saw a client. |
| DisconnectMonitor.CancelledWhileIdle | main.go:167-174 | Cancellation seen before any client ends the monitor without firing, whatever comes later. |
| DisconnectMonitor.TwoCancelledSamplesEnd | main.go:160-192 | From any phase, two cancelled samples end the monitor. |
| DisconnectMonitor.CancellationEndsMonitoring | main.go:160-192 | Once every sample is cancelled, monitoring ends after at most two samples. |
| DisconnectMonitor.TerminalAbsorbs | main.go:182-190 | A closed or returned monitor is unaffected by any later samples. |
| DisconnectMonitor.StaysDisconnected | main.go:182-184 | Once the channel is closed, it stays closed. |
| DisconnectMonitor.FiresAtMostOnce | main.go:182-184 | At most one sample closes disconnectCh. |
| LiveReload.Start | main.go:96-113 | Given at least one argument and one read result per argument, startup fails if and only if some argument is unreadable, and then reports the index of the first unreadable argument, every earlier one having been read. Otherwise it installs the full join, the watch set built as at main.go:352-363 by `Baseline`, and an empty, valid registry. |
| LiveReload.Poll | main.go:372-401 | Recorded times follow the tick. An unchanged tick leaves the document and every slot as they were. A changed tick installs the refreshed join and leaves every registered client with a pending signal. |
| LiveReload.QuietPollIsIdentity | main.go:384-401 | A poll whose stats show no strictly later time leaves the whole server state untouched. |
| LiveReload.PollAfterEditNotifies | main.go:379-400 | An edit to a watched path installs the refreshed join, records the new time, and lets every client receive a reload. |

## Behaviour notes

- An empty source after a non-empty one still gets "\n\n", because the test
  is on the bytes gathered so far, not on the source
  (`EmptyMiddleSourceKeepsSeparators`). Empty leading sources add nothing.
- `disconnectCh` closes on the first zero sample of the second loop; no
  further sample confirms it.
- Within one sample the count is read before `ctx.Done()` is checked. So a
  positive first-loop sample moves to the second loop even when cancelled,
  and a zero second-loop sample closes the channel even when cancelled.
  `Step` and `MonitorFiresIff` state this order.

## Left out

- Reading stdin when there are no arguments (main.go:79-95), and argument
  parsing and usage output. This is I/O, outside the joining and watching
  logic.
- The HTTP server, mux, the page, raw and event-stream handlers' response
  writing, SSE framing, and the HTML/CSS template. These are I/O and
  presentation.
- Markdown conversion (`renderMarkdown`, `init`). This is goldmark, a foreign
  library.
- `openBrowser`, signal handling, and the final `select` with
  `server.Shutdown`. These compose OS signals and channels and are not state
  the core owns.
- Real time: the 300ms ticker, the 500ms sleep and the 2s shutdown timeout.
  Ticks and samples are abstract steps.
- Goroutine interleavings and the two mutexes. Each locked region is one
  atomic step, so the document swap of `mu` and the map operations under
  `clientsMu` are single transitions.
- `LiveReload.Poll` is one step, but the code holds two locks in turn. The
  content swap runs under `mu` (main.go:397-399), then `notifyClients` runs
  under `clientsMu` (main.go:400). A connect or a receive between the swap
  and the notify is not modelled. Such a client is already registered when
  `notifyClients` runs, so it still receives a signal; a receive in between
  only causes an extra fetch of `/raw`.
- The event-stream handler's wait on its own request context (main.go:334-335)
  is not modelled as a step. A handler's end is the `Disconnect` event of the
  registry, which runs the deferred delete.
- `os.Stat`, `os.ReadFile` and `filepath.Abs` are not executed. Their
  outcomes are parameters: `stat`/`abs` functions and per-argument
  `Option<Bytes>` read results.
- Go's per-iteration map order is a parameter of `TickInOrder`: any
  duplicate-free enumeration of the keys.
