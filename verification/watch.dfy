/**
 Poll-based change detection of `watchFiles`.

 At start the watcher records, for every argument whose absolute path resolves
 and stats, that path's modification time. On every tick it stats each
 recorded path again; a path whose time is strictly later than the recorded
 one has its time advanced, and the tick reports `changed`. Paths are never
 added or removed after the baseline.

 `filepath.Abs` and `os.Stat` are supplied as functions: `abs(p)` is the
 absolute path of argument `p` (or `None` when it fails), `stat(a)` the
 modification time of absolute path `a` at that moment (or `None`).
 */
module ChangeDetector {
  import opened Wrappers

  type Path = string

  /** A modification time; only the order of times matters. */
  type Time = int

  /** The path is recorded at baseline: it resolves and stats. */
  predicate Watchable(p: Path, abs: Path -> Option<Path>, stat: Path -> Option<Time>)
  {
    abs(p).Some? && stat(abs(p).value).Some?
  }

  /** The baseline map of `watchFiles`: absolute path to first observed modification time. */
  function Baseline(paths: seq<Path>, abs: Path -> Option<Path>, stat: Path -> Option<Time>)
    : (m: map<Path, Time>)
    ensures forall a :: a in m <==> exists p :: p in paths && Watchable(p, abs, stat) && abs(p).value == a
    ensures forall a :: a in m ==> stat(a) == Some(m[a])
  {
    if |paths| == 0 then map[]
    else
      var init := paths[..|paths| - 1];
      var p := paths[|paths| - 1];
      var m := Baseline(init, abs, stat);
      assert forall q :: q in paths <==> q in init || q == p;
      match abs(p)
      case None => m
      case Some(a) =>
        match stat(a)
        case None => m
        case Some(t) => m[a := t]
  }

  /** The tick observes a time strictly later than the recorded one. */
  predicate Advanced(last: Time, observed: Option<Time>)
  {
    observed.Some? && observed.value > last
  }

  /** The recorded time after one observation. */
  function Advance(last: Time, observed: Option<Time>): (t: Time)
    ensures t >= last
    ensures t != last <==> Advanced(last, observed)
    ensures Advanced(last, observed) ==> t == observed.value
  {
    match observed
    case None => last
    case Some(t) => if t > last then t else last
  }

  datatype TickResult = TickResult(times: map<Path, Time>, changed: bool)

  /**
   One tick, independent of any visiting order: every recorded time advances
   to a strictly later observation, and `changed` says whether any did.
   */
  function Tick(times: map<Path, Time>, stat: Path -> Option<Time>): (r: TickResult)
    ensures r.times.Keys == times.Keys
    ensures forall p :: p in times ==> r.times[p] >= times[p]
    ensures forall p :: p in times && stat(p).None? ==> r.times[p] == times[p]
    ensures forall p :: p in times && Advanced(times[p], stat(p)) ==> r.times[p] == stat(p).value
    ensures forall p :: p in times && !Advanced(times[p], stat(p)) ==> r.times[p] == times[p]
    ensures r.changed <==> exists p :: p in times && Advanced(times[p], stat(p))
    ensures !r.changed <==> r.times == times
  {
    var next := map p | p in times :: Advance(times[p], stat(p));
    var changed := exists p :: p in times && Advanced(times[p], stat(p));
    assert !changed ==> next == times;
    assert changed ==> next != times by {
      if changed {
        var p :| p in times && Advanced(times[p], stat(p));
        assert next[p] != times[p];
      }
    }
    TickResult(next, changed)
  }

  /** `order` enumerates the keys of `times`, each exactly once, as a map range does. */
  ghost predicate Enumerates(order: seq<Path>, times: map<Path, Time>)
  {
    && (forall i, j :: 0 <= i < j < |order| ==> order[i] != order[j])
    && (forall p :: p in times <==> p in order)
  }

  /**
   The range loop of one tick, visiting the recorded paths in an arbitrary
   order. Whatever the order, it computes the order-free `Tick`.
   */
  method TickInOrder(times: map<Path, Time>, stat: Path -> Option<Time>, order: seq<Path>)
    returns (next: map<Path, Time>, changed: bool)
    requires Enumerates(order, times)
    ensures TickResult(next, changed) == Tick(times, stat)
  {
    next := times;
    changed := false;
    var i := 0;
    while i < |order|
      invariant 0 <= i <= |order|
      invariant next.Keys == times.Keys
      invariant forall k :: 0 <= k < i ==> next[order[k]] == Advance(times[order[k]], stat(order[k]))
      invariant forall k :: i <= k < |order| ==> next[order[k]] == times[order[k]]
      invariant changed <==> exists k :: 0 <= k < i && Advanced(times[order[k]], stat(order[k]))
    {
      var p := order[i];
      var lastMod := next[p];
      match stat(p) {
        case None =>
        case Some(t) =>
          if t > lastMod {
            next := next[p := t];
            changed := true;
          }
      }
      i := i + 1;
    }
    VisitedAllMatchesTick(times, stat, order, next, changed);
  }

  /** A loop that has advanced every path of the enumeration has computed `Tick`. */
  lemma VisitedAllMatchesTick(times: map<Path, Time>, stat: Path -> Option<Time>, order: seq<Path>,
                              next: map<Path, Time>, changed: bool)
    requires Enumerates(order, times)
    requires next.Keys == times.Keys
    requires forall k :: 0 <= k < |order| ==> next[order[k]] == Advance(times[order[k]], stat(order[k]))
    requires changed <==> exists k :: 0 <= k < |order| && Advanced(times[order[k]], stat(order[k]))
    ensures TickResult(next, changed) == Tick(times, stat)
  {
    var r := Tick(times, stat);
    forall p | p in times
      ensures next[p] == r.times[p]
    {
      var k :| 0 <= k < |order| && order[k] == p;
    }
    if r.changed {
      var p :| p in times && Advanced(times[p], stat(p));
      var k :| 0 <= k < |order| && order[k] == p;
    }
  }

  /** The recorded times after a run of ticks, one stat snapshot per tick. */
  function Ticks(times: map<Path, Time>, stats: seq<Path -> Option<Time>>): map<Path, Time>
  {
    if |stats| == 0 then times else Ticks(Tick(times, stats[0]).times, stats[1..])
  }

  /**
   The watch set is fixed at baseline: however many ticks run, they neither
   add nor remove a path, and no recorded time ever decreases.
   */
  lemma {:induction false} TicksKeepWatchSet(times: map<Path, Time>, stats: seq<Path -> Option<Time>>)
    ensures Ticks(times, stats).Keys == times.Keys
    ensures forall p :: p in times ==> Ticks(times, stats)[p] >= times[p]
  {
    if |stats| > 0 {
      TicksKeepWatchSet(Tick(times, stats[0]).times, stats[1..]);
    }
  }

  /**
   Only paths recorded at baseline are ever watched: an argument whose
   absolute path fails, or whose stat fails at startup, is never a key.
   */
  lemma {:induction false} UnwatchablePathNeverWatched(paths: seq<Path>, abs: Path -> Option<Path>,
                                    stat: Path -> Option<Time>, stats: seq<Path -> Option<Time>>, a: Path)
    requires forall p :: p in paths && abs(p) == Some(a) ==> stat(a).None?
    ensures a !in Ticks(Baseline(paths, abs, stat), stats)
  {
    TicksKeepWatchSet(Baseline(paths, abs, stat), stats);
  }

  /**
   No spurious change at startup: a first tick that observes the same times as
   the baseline reports nothing and keeps the map.
   */
  lemma BaselineFirstTickQuiet(paths: seq<Path>, abs: Path -> Option<Path>, stat: Path -> Option<Time>)
    ensures Tick(Baseline(paths, abs, stat), stat) == TickResult(Baseline(paths, abs, stat), false)
  {
  }

  /** A modification strictly after the baseline is reported on the next tick. */
  lemma LaterModificationDetected(times: map<Path, Time>, stat: Path -> Option<Time>, p: Path, t: Time)
    requires p in times && stat(p) == Some(t) && t > times[p]
    ensures Tick(times, stat).changed
    ensures Tick(times, stat).times[p] == t
  {
  }
}
