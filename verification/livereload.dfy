/**
 The live-reload bookkeeping of main.go put together: the document bytes
 served to viewers, the watcher's recorded modification times, and the client
 registry. Each locked region of the program is one atomic step here.
 */
module LiveReload {
  import opened Wrappers
  import opened SourceJoin
  import opened ChangeDetector
  import opened ClientRegistry

  /** `content`, the watcher's `modTimes`, and `clients`. */
  datatype Server = Server(content: Bytes, watched: map<Path, Time>, clients: Registry)

  /**
   Startup with one or more file arguments `paths` (no arguments means stdin,
   which is not modelled): `results[i]` is the outcome of
   reading `paths[i]`, `abs` and `stat` the outcomes of `filepath.Abs` and `os.Stat`
   at the watcher's start. The first unreadable argument aborts with its index and
   no server state is installed; otherwise the document is the join of all
   sources, the watch set is the baseline, and nobody is connected.
   */
  function Start(paths: seq<Path>, results: seq<Option<Bytes>>,
                 abs: Path -> Option<Path>, stat: Path -> Option<Time>): (r: Result<Server, nat>)
    requires |paths| > 0
    requires |results| == |paths|
    ensures r.Err? <==> exists i :: 0 <= i < |results| && results[i].None?
    ensures r.Err? ==> r.error < |results| && results[r.error].None?
    ensures r.Err? ==> forall i :: 0 <= i < r.error ==> results[i].Some?
    ensures r.Ok? ==> r.value.content == Join(Readable(results))
    ensures r.Ok? ==> r.value.watched == Baseline(paths, abs, stat)
    ensures r.Ok? ==> Valid(r.value.clients) && Count(r.value.clients) == 0
  {
    match LoadSources(results)
    case Err(i) => Err(i)
    case Ok(content) => Ok(Server(content, Baseline(paths, abs, stat), Empty()))
  }

  /**
   One poller tick. `stat` gives the times seen on this tick and `results`
   the outcomes of re-reading every argument. When no watched path advanced,
   nothing changes at all; otherwise the times advance, the document becomes
   the join of the readable sources, and every registered client has a
   pending reload signal.
   */
  function Poll(s: Server, stat: Path -> Option<Time>, results: seq<Option<Bytes>>): (s': Server)
    ensures s'.watched == Tick(s.watched, stat).times
    ensures !Tick(s.watched, stat).changed ==> s' == s
    ensures Tick(s.watched, stat).changed ==>
      && s'.content == Join(Readable(results))
      && s'.clients.pending.Keys == s.clients.pending.Keys
      && (forall c :: c in s'.clients.pending ==> s'.clients.pending[c])
    ensures Valid(s.clients) ==> Valid(s'.clients)
  {
    var tick := Tick(s.watched, stat);
    if tick.changed then
      Server(RefreshSources(results), tick.times, Notify(s.clients))
    else
      s
  }

  /**
   A poll whose stats show no strictly later time leaves the server exactly
   as it was, whatever the sources would now read back.
   */
  lemma QuietPollIsIdentity(s: Server, stat: Path -> Option<Time>, results: seq<Option<Bytes>>)
    requires forall p :: p in s.watched && stat(p).Some? ==> stat(p).value <= s.watched[p]
    ensures Poll(s, stat, results) == s
  {
  }

  /**
   A poll that sees a later time on one watched path installs the refreshed
   join, even when other sources have become unreadable, and every client
   registered before the poll can then receive a reload signal.
   */
  lemma PollAfterEditNotifies(s: Server, stat: Path -> Option<Time>, results: seq<Option<Bytes>>, p: Path)
    requires p in s.watched && stat(p).Some? && stat(p).value > s.watched[p]
    ensures Poll(s, stat, results).content == RefreshSources(results)
    ensures forall c :: c in s.clients.pending ==> Consume(Poll(s, stat, results).clients, c).Some?
    ensures Poll(s, stat, results).watched[p] == stat(p).value
  {
  }
}
