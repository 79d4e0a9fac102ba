/**
 The disconnect monitor started by `run`.

 Every 500ms it samples the number of registered clients. In its first phase
 it waits for a sample above zero; in its second phase it waits for a sample
 of zero and then closes `disconnectCh`, which shuts the server down. After
 each sample that did not move it on, it checks whether the shutdown context
 is cancelled and, if so, returns without closing the channel.

 Note the order inside one sample: the count is examined before cancellation,
 so a positive sample moves to the second phase even when cancelled, and a
 zero sample in the second phase fires even when cancelled. The code fires on
 the first zero sample; there is no confirmation by a second sample.
 */
module DisconnectMonitor {

  datatype Phase =
    | AwaitingClient   // first loop: no sample has yet seen a client
    | AwaitingDrain    // second loop: a client was seen, waiting for zero
    | Disconnected     // `disconnectCh` has been closed
    | Stopped          // returned on cancellation without closing

  /** One sample: the client count read under the lock, and whether the context was done. */
  datatype Sample = Sample(count: nat, cancelled: bool)

  predicate Terminal(ph: Phase)
  {
    ph.Disconnected? || ph.Stopped?
  }

  /** One iteration of whichever loop the monitor is in. */
  function Step(ph: Phase, s: Sample): (r: Phase)
    ensures Terminal(ph) ==> r == ph
    ensures r.Disconnected? && !ph.Disconnected? ==> ph.AwaitingDrain? && s.count == 0
    ensures ph.AwaitingDrain? ==> (r.Disconnected? <==> s.count == 0)
    ensures ph.AwaitingClient? ==> (r.AwaitingDrain? <==> s.count > 0)
    ensures r.AwaitingClient? ==> ph.AwaitingClient?
    ensures r.Stopped? && !ph.Stopped? ==> s.cancelled
    ensures !Terminal(ph) && s.cancelled ==> r != ph
  {
    match ph
    case AwaitingClient =>
      if s.count > 0 then AwaitingDrain
      else if s.cancelled then Stopped
      else AwaitingClient
    case AwaitingDrain =>
      if s.count == 0 then Disconnected
      else if s.cancelled then Stopped
      else AwaitingDrain
    case _ => ph
  }

  /** The phase after a sequence of samples. */
  function Run(ph: Phase, samples: seq<Sample>): Phase
    decreases |samples|
  {
    if |samples| == 0 then ph else Run(Step(ph, samples[0]), samples[1..])
  }

  /** The monitor as started: in its first phase. */
  function Monitor(samples: seq<Sample>): Phase
  {
    Run(AwaitingClient, samples)
  }

  // ---------------------------------------------------------------------------
  // Reference description of when the channel is closed.
  // ---------------------------------------------------------------------------

  /** Samples `[from, to)` all continue the first loop: no client, not cancelled. */
  ghost predicate QuietIdle(samples: seq<Sample>, to: nat)
    requires to <= |samples|
  {
    forall k :: 0 <= k < to ==> samples[k].count == 0 && !samples[k].cancelled
  }

  /** Samples strictly between `i` and `j` all continue the second loop. */
  ghost predicate QuietBusy(samples: seq<Sample>, i: nat, j: nat)
    requires i <= j <= |samples|
  {
    forall k :: i < k < j ==> samples[k].count > 0 && !samples[k].cancelled
  }

  /**
   Sample `i` is the first to see a client, sample `j > i` the first after it
   to see none, and nothing cancelled the monitor in between.
   */
  ghost predicate DrainsAt(samples: seq<Sample>, i: nat, j: nat)
  {
    && i < j < |samples|
    && QuietIdle(samples, i)
    && samples[i].count > 0
    && QuietBusy(samples, i, j)
    && samples[j].count == 0
  }

  ghost predicate Drains(samples: seq<Sample>)
  {
    exists i: nat, j: nat :: DrainsAt(samples, i, j)
  }

  // ---------------------------------------------------------------------------
  // Lemmas
  // ---------------------------------------------------------------------------

  /** A closed or returned monitor stays so. */
  lemma {:induction false} TerminalAbsorbs(ph: Phase, samples: seq<Sample>)
    requires Terminal(ph)
    ensures Run(ph, samples) == ph
    decreases |samples|
  {
    if |samples| > 0 {
      TerminalAbsorbs(Step(ph, samples[0]), samples[1..]);
    }
  }

  /** Running over two sequences in turn is running over their concatenation. */
  lemma {:induction false} RunAppend(ph: Phase, a: seq<Sample>, b: seq<Sample>)
    ensures Run(ph, a + b) == Run(Run(ph, a), b)
    decreases |a|
  {
    if |a| > 0 {
      assert (a + b)[1..] == a[1..] + b;
      RunAppend(Step(ph, a[0]), a[1..], b);
    } else {
      assert a + b == b;
    }
  }

  /**
   Sample `j` is the first of `samples` to see no client, and every sample
   before it saw a client and no cancellation: the second loop closes the
   channel at `j`.
   */
  ghost predicate BusyUntil(samples: seq<Sample>, j: nat)
  {
    && j < |samples|
    && samples[j].count == 0
    && forall k :: 0 <= k < j ==> samples[k].count > 0 && !samples[k].cancelled
  }

  /** The second loop closes the channel exactly when some sample matches `BusyUntil`. */
  lemma {:induction false} DrainPhaseFires(samples: seq<Sample>)
    ensures Run(AwaitingDrain, samples) == Disconnected <==> exists j: nat :: BusyUntil(samples, j)
  {
    if |samples| == 0 {
    } else if samples[0].count == 0 {
      TerminalAbsorbs(Disconnected, samples[1..]);
      assert BusyUntil(samples, 0);
    } else if samples[0].cancelled {
      TerminalAbsorbs(Stopped, samples[1..]);
      forall j: nat
        ensures !BusyUntil(samples, j)
      {
        if j > 0 {
          assert !(samples[0].count > 0 && !samples[0].cancelled);
        }
      }
    } else {
      var rest := samples[1..];
      DrainPhaseFires(rest);
      forall j: nat | BusyUntil(rest, j)
        ensures BusyUntil(samples, j + 1)
      {
        forall k | 0 <= k < j + 1
          ensures samples[k].count > 0 && !samples[k].cancelled
        {
          if k > 0 {
            assert samples[k] == rest[k - 1];
          }
        }
      }
      forall j: nat | BusyUntil(samples, j)
        ensures BusyUntil(rest, j - 1)
      {
        assert j != 0;
        forall k | 0 <= k < j - 1
          ensures rest[k].count > 0 && !rest[k].cancelled
        {
          assert rest[k] == samples[k + 1];
        }
      }
    }
  }

  /**
   The monitor returns without closing the channel only after a sample that
   saw the context cancelled.
   */
  lemma {:induction false} StoppedOnlyIfCancelled(ph: Phase, samples: seq<Sample>)
    requires !ph.Stopped?
    requires Run(ph, samples).Stopped?
    ensures exists k :: 0 <= k < |samples| && samples[k].cancelled
    decreases |samples|
  {
    var next := Step(ph, samples[0]);
    if next.Stopped? {
      assert samples[0].cancelled;
    } else {
      StoppedOnlyIfCancelled(next, samples[1..]);
      var k :| 0 <= k < |samples[1..]| && samples[1..][k].cancelled;
      assert samples[k + 1].cancelled;
    }
  }

  /**
   The monitor closes `disconnectCh` exactly when some sample saw a client,
   a later sample saw none, and no cancellation was observed before either:
   `Drains` is the reference description.
   */
  lemma {:induction false} MonitorFiresIff(samples: seq<Sample>)
    ensures Monitor(samples) == Disconnected <==> Drains(samples)
  {
    if |samples| == 0 {
    } else if samples[0].count > 0 {
      var rest := samples[1..];
      DrainPhaseFires(rest);
      forall j: nat | BusyUntil(rest, j)
        ensures DrainsAt(samples, 0, j + 1)
      {
        forall k | 0 < k < j + 1
          ensures samples[k].count > 0 && !samples[k].cancelled
        {
          assert samples[k] == rest[k - 1];
        }
      }
      forall i: nat, j: nat | DrainsAt(samples, i, j)
        ensures BusyUntil(rest, j - 1)
      {
        assert i == 0;
        forall k | 0 <= k < j - 1
          ensures rest[k].count > 0 && !rest[k].cancelled
        {
          assert rest[k] == samples[k + 1];
        }
      }
    } else if samples[0].cancelled {
      TerminalAbsorbs(Stopped, samples[1..]);
      forall i: nat, j: nat
        ensures !DrainsAt(samples, i, j)
      {
        if i > 0 {
          assert !(samples[0].count == 0 && !samples[0].cancelled);
        }
      }
    } else {
      var rest := samples[1..];
      MonitorFiresIff(rest);
      forall i: nat, j: nat | DrainsAt(rest, i, j)
        ensures DrainsAt(samples, i + 1, j + 1)
      {
        forall k | 0 <= k < i + 1
          ensures samples[k].count == 0 && !samples[k].cancelled
        {
          if k > 0 {
            assert samples[k] == rest[k - 1];
          }
        }
        forall k | i + 1 < k < j + 1
          ensures samples[k].count > 0 && !samples[k].cancelled
        {
          assert samples[k] == rest[k - 1];
        }
      }
      forall i: nat, j: nat | DrainsAt(samples, i, j)
        ensures DrainsAt(rest, i - 1, j - 1)
      {
        assert i != 0;
        forall k | 0 <= k < i - 1
          ensures rest[k].count == 0 && !rest[k].cancelled
        {
          assert rest[k] == samples[k + 1];
        }
        forall k | i - 1 < k < j - 1
          ensures rest[k].count > 0 && !rest[k].cancelled
        {
          assert rest[k] == samples[k + 1];
        }
      }
    }
  }

  /**
   A session in which no sample ever sees a client never shuts itself down:
   the monitor is still waiting, or returned on cancellation.
   */
  lemma NeverFiresWithoutClient(samples: seq<Sample>)
    requires forall k :: 0 <= k < |samples| ==> samples[k].count == 0
    ensures Monitor(samples) == AwaitingClient || Monitor(samples) == Stopped
    ensures Monitor(samples) == Stopped ==> exists k :: 0 <= k < |samples| && samples[k].cancelled
  {
    MonitorFiresIff(samples);
    if Monitor(samples) == Stopped {
      StoppedOnlyIfCancelled(AwaitingClient, samples);
    }
    if Monitor(samples).AwaitingDrain? {
      AwaitingDrainSawClient(samples);
    }
  }

  /** Reaching the second loop requires some sample to have seen a client. */
  lemma {:induction false} AwaitingDrainSawClient(samples: seq<Sample>)
    requires Run(AwaitingClient, samples) == AwaitingDrain
    ensures exists k :: 0 <= k < |samples| && samples[k].count > 0
  {
    if samples[0].count == 0 {
      if samples[0].cancelled {
        TerminalAbsorbs(Stopped, samples[1..]);
        assert false;
      }
      AwaitingDrainSawClient(samples[1..]);
      var k :| 0 <= k < |samples[1..]| && samples[1..][k].count > 0;
      assert samples[k + 1].count > 0;
    }
  }

  /**
   Cancellation observed before any client ends monitoring without firing:
   the monitor returns and the channel is never closed, whatever follows.
   */
  lemma CancelledWhileIdle(samples: seq<Sample>, c: nat)
    requires c < |samples| && samples[c].cancelled
    requires forall k :: 0 <= k <= c ==> samples[k].count == 0
    ensures Monitor(samples) == Stopped
  {
    var before := samples[..c];
    var after := samples[c..];
    assert samples == before + after;
    RunAppend(AwaitingClient, before, after);
    NeverFiresWithoutClient(before);
    if Monitor(before) == AwaitingDrain {
      assert false;
    }
    TerminalAbsorbs(Stopped, after[1..]);
  }

  /** Any two cancelled samples end the monitor, whatever phase it was in. */
  lemma TwoCancelledSamplesEnd(ph: Phase, s1: Sample, s2: Sample)
    requires s1.cancelled && s2.cancelled
    ensures Terminal(Step(Step(ph, s1), s2))
  {
  }

  /**
   Cancellation is permanent once the context is done: if every sample from
   `c` on is cancelled, two such samples suffice for the monitor to end.
   */
  lemma CancellationEndsMonitoring(samples: seq<Sample>, c: nat)
    requires c + 2 <= |samples|
    requires forall k :: c <= k < |samples| ==> samples[k].cancelled
    ensures Terminal(Monitor(samples))
  {
    var before := samples[..c];
    var two := samples[c..c + 2];
    var after := samples[c + 2..];
    assert samples == before + two + after;
    RunAppend(AwaitingClient, before + two, after);
    RunAppend(AwaitingClient, before, two);
    var ph := Monitor(before);
    TwoCancelledSamplesEnd(ph, two[0], two[1]);
    assert |two| == 2 && two[1..][0] == two[1] && two[1..][1..] == [];
    assert Run(ph, two) == Run(Step(ph, two[0]), two[1..]);
    assert Run(ph, two) == Step(Step(ph, two[0]), two[1]);
    TerminalAbsorbs(Run(ph, two), after);
  }

  /** The monitor's phase after the first `n` samples. */
  function PhaseAfter(samples: seq<Sample>, n: nat): Phase
    requires n <= |samples|
  {
    Monitor(samples[..n])
  }

  /** The channel is closed by sample `n`. */
  ghost predicate FiresAt(samples: seq<Sample>, n: nat)
  {
    n < |samples| && !PhaseAfter(samples, n).Disconnected? && Step(PhaseAfter(samples, n), samples[n]).Disconnected?
  }

  /** Once closed, the channel stays closed after any further samples. */
  lemma StaysDisconnected(samples: seq<Sample>, m: nat, n: nat)
    requires m <= n <= |samples|
    requires PhaseAfter(samples, m) == Disconnected
    ensures PhaseAfter(samples, n) == Disconnected
  {
    assert samples[..n] == samples[..m] + samples[m..n];
    RunAppend(AwaitingClient, samples[..m], samples[m..n]);
    TerminalAbsorbs(Disconnected, samples[m..n]);
  }

  /** The channel is closed by at most one sample, so `close` runs at most once. */
  lemma FiresAtMostOnce(samples: seq<Sample>)
    ensures forall m: nat, n: nat :: FiresAt(samples, m) && FiresAt(samples, n) ==> m == n
  {
    forall m: nat, n: nat | FiresAt(samples, m) && m < n
      ensures !FiresAt(samples, n)
    {
      assert samples[..m + 1] == samples[..m] + [samples[m]];
      RunAppend(AwaitingClient, samples[..m], [samples[m]]);
      if n <= |samples| {
        StaysDisconnected(samples, m + 1, n);
      }
    }
  }
}
