/**
 Joining of the Markdown sources into one document.

 `run` (startup) and `watchFiles` (refresh) both build the document with the
 same loop: for each source in argument order, append two line feeds when the
 bytes gathered so far are non-empty, then append the source. Startup aborts on
 the first unreadable source; refresh skips unreadable sources.
 */
module SourceJoin {
  import opened Wrappers

  newtype byte = b: int | 0 <= b < 256
  type Bytes = seq<byte>

  const LineFeed: byte := 10

  /** The two bytes put between sources. */
  const Separator: Bytes := [LineFeed, LineFeed]

  /** One pass of the joining loop: `combined` grows by `data`. */
  function AppendSource(combined: Bytes, data: Bytes): Bytes
  {
    if |combined| > 0 then combined + Separator + data else combined + data
  }

  /** The value of `combined` after the loop has consumed every source of `srcs`. */
  function Join(srcs: seq<Bytes>): Bytes
  {
    if |srcs| == 0 then [] else AppendSource(Join(srcs[..|srcs| - 1]), srcs[|srcs| - 1])
  }

  // ---------------------------------------------------------------------------
  // Reference definition: the document described without the accumulator.
  // ---------------------------------------------------------------------------

  /** Every source of `srcs`, each preceded by the separator. */
  function Prefixed(srcs: seq<Bytes>): Bytes
  {
    if |srcs| == 0 then [] else Separator + srcs[0] + Prefixed(srcs[1..])
  }

  /**
   Leading empty sources contribute nothing; the first non-empty source starts
   the document, and every later source (empty or not) is preceded by the
   separator.
   */
  function JoinSpec(srcs: seq<Bytes>): Bytes
  {
    if |srcs| == 0 then []
    else if |srcs[0]| == 0 then JoinSpec(srcs[1..])
    else srcs[0] + Prefixed(srcs[1..])
  }

  /** Concatenation of the sources with nothing in between. */
  function Flatten(srcs: seq<Bytes>): Bytes
  {
    if |srcs| == 0 then [] else srcs[0] + Flatten(srcs[1..])
  }

  // ---------------------------------------------------------------------------
  // Startup and refresh
  // ---------------------------------------------------------------------------

  /** The contents of the sources that were read successfully, in argument order. */
  function Readable(results: seq<Option<Bytes>>): (r: seq<Bytes>)
    ensures |r| <= |results|
    ensures |r| == |results| <==> AllRead(results)
    ensures AllRead(results) ==> forall i :: 0 <= i < |results| ==> r[i] == results[i].value
  {
    if |results| == 0 then []
    else
      var init := Readable(results[..|results| - 1]);
      match results[|results| - 1]
      case None => init
      case Some(data) => init + [data]
  }

  /** True when every read succeeded. */
  predicate AllRead(results: seq<Option<Bytes>>)
  {
    forall i :: 0 <= i < |results| ==> results[i].Some?
  }

  /**
   The startup join: `results[i]` is the outcome of reading the i-th argument.
   The first failing read aborts with its argument index; otherwise the
   document is the join of all contents.
   */
  function LoadSources(results: seq<Option<Bytes>>): (r: Result<Bytes, nat>)
    ensures r.Ok? <==> AllRead(results)
    ensures r.Ok? ==> r.value == Join(Readable(results)) && |Readable(results)| == |results|
    ensures r.Err? ==> r.error < |results| && results[r.error].None?
    ensures r.Err? ==> forall i :: 0 <= i < r.error ==> results[i].Some?
  {
    if |results| == 0 then Ok([])
    else
      var init := results[..|results| - 1];
      match LoadSources(init)
      case Err(i) => Err(i)
      case Ok(combined) =>
        match results[|results| - 1]
        case None => Err(|results| - 1)
        case Some(data) =>
          assert Readable(results) == Readable(init) + [data];
          assert Readable(results)[..|results| - 1] == Readable(init);
          Ok(AppendSource(combined, data))
  }

  /**
   The refresh join: unreadable sources are skipped and the document is the
   join of the readable ones in their original order.
   */
  function RefreshSources(results: seq<Option<Bytes>>): (r: Bytes)
    ensures r == Join(Readable(results))
  {
    if |results| == 0 then []
    else
      var init := results[..|results| - 1];
      var combined := RefreshSources(init);
      match results[|results| - 1]
      case None => combined
      case Some(data) =>
        assert (Readable(init) + [data])[..|Readable(init)|] == Readable(init);
        AppendSource(combined, data)
  }

  // ---------------------------------------------------------------------------
  // Lemmas
  // ---------------------------------------------------------------------------

  /**
   The readable sources described from the front: a successful first read
   contributes its contents ahead of the readable rest, a failed one nothing.
   */
  lemma {:induction false} ReadableCons(x: Option<Bytes>, rest: seq<Option<Bytes>>)
    ensures Readable([x] + rest) == (if x.Some? then [x.value] else []) + Readable(rest)
    decreases |rest|
  {
    var results := [x] + rest;
    if |rest| > 0 {
      var init := rest[..|rest| - 1];
      assert results[..|results| - 1] == [x] + init;
      assert results[|results| - 1] == rest[|rest| - 1];
      ReadableCons(x, init);
    } else {
      assert results[..0] == [];
    }
  }

  /** The joining loop produces the reference document. */
  lemma {:induction false} JoinMatchesSpec(srcs: seq<Bytes>)
    ensures Join(srcs) == JoinSpec(srcs)
  {
    if |srcs| > 0 {
      var init := srcs[..|srcs| - 1];
      var last := srcs[|srcs| - 1];
      assert srcs == init + [last];
      JoinMatchesSpec(init);
      JoinSpecSnoc(init, last);
    }
  }

  /** The reference document grows as the joining loop does. */
  lemma {:induction false} JoinSpecSnoc(init: seq<Bytes>, last: Bytes)
    ensures JoinSpec(init + [last]) == AppendSource(JoinSpec(init), last)
  {
    var srcs := init + [last];
    if |init| == 0 {
      assert srcs[1..] == [];
    } else {
      assert srcs[0] == init[0];
      assert srcs[1..] == init[1..] + [last];
      if |init[0]| == 0 {
        JoinSpecSnoc(init[1..], last);
      } else {
        PrefixedSnoc(init[1..], last);
        ConcatAssoc(init[0], Prefixed(init[1..]), Separator, last);
      }
    }
  }

  /** Appending a source adds one separator and the source to `Prefixed`. */
  lemma {:induction false} PrefixedSnoc(srcs: seq<Bytes>, last: Bytes)
    ensures Prefixed(srcs + [last]) == Prefixed(srcs) + Separator + last
  {
    if |srcs| == 0 {
      assert (srcs + [last])[1..] == [];
    } else {
      assert (srcs + [last])[1..] == srcs[1..] + [last];
      PrefixedSnoc(srcs[1..], last);
      ConcatAssoc(Separator + srcs[0], Prefixed(srcs[1..]), Separator, last);
    }
  }

  /** Regrouping of four concatenated byte strings. */
  lemma ConcatAssoc(a: Bytes, b: Bytes, c: Bytes, d: Bytes)
    ensures a + (b + c + d) == a + b + c + d
  {
  }

  /** The document is empty exactly when every source is empty. */
  lemma {:induction false} JoinEmptyIff(srcs: seq<Bytes>)
    ensures |Join(srcs)| == 0 <==> forall i :: 0 <= i < |srcs| ==> |srcs[i]| == 0
  {
    JoinMatchesSpec(srcs);
    JoinSpecEmptyIff(srcs);
  }

  /** The reference document is empty exactly when every source is empty. */
  lemma {:induction false} JoinSpecEmptyIff(srcs: seq<Bytes>)
    ensures |JoinSpec(srcs)| == 0 <==> forall i :: 0 <= i < |srcs| ==> |srcs[i]| == 0
  {
    if |srcs| > 0 && |srcs[0]| == 0 {
      JoinSpecEmptyIff(srcs[1..]);
      assert forall i :: 1 <= i < |srcs| ==> srcs[i] == srcs[1..][i - 1];
    }
  }

  /** A single source is returned unchanged. */
  lemma JoinSingle(s: Bytes)
    ensures Join([s]) == s
  {
  }

  /** Joining `"# A"` and `"# B"` yields `"# A\n\n# B"`. */
  lemma JoinTwoHeadings()
    ensures Join([[35, 32, 65], [35, 32, 66]]) == [35, 32, 65, 10, 10, 35, 32, 66]
  {
  }

  /** Empty sources in front contribute nothing, not even a separator. */
  lemma LeadingEmptySourceIgnored(srcs: seq<Bytes>)
    ensures Join([[]] + srcs) == Join(srcs)
  {
    JoinMatchesSpec([[]] + srcs);
    JoinMatchesSpec(srcs);
    assert ([[]] + srcs)[1..] == srcs;
  }

  /**
   No leading separator: when the first source is non-empty the document
   starts with it, and every later source follows its own separator.
   */
  lemma JoinFromFirstSource(s: Bytes, rest: seq<Bytes>)
    requires |s| > 0
    ensures Join([s] + rest) == s + Prefixed(rest)
  {
    JoinMatchesSpec([s] + rest);
    assert ([s] + rest)[1..] == rest;
  }

  /** Number of bytes the prefixed sources occupy. */
  lemma {:induction false} PrefixedLength(srcs: seq<Bytes>)
    ensures |Prefixed(srcs)| == |Flatten(srcs)| + 2 * |srcs|
  {
    if |srcs| > 0 {
      PrefixedLength(srcs[1..]);
    }
  }

  /**
   The length of the document when the first source is non-empty: all source
   bytes plus one separator for each later source.
   */
  lemma JoinLength(srcs: seq<Bytes>)
    requires |srcs| > 0 && |srcs[0]| > 0
    ensures |Join(srcs)| == |Flatten(srcs)| + 2 * (|srcs| - 1)
  {
    JoinMatchesSpec(srcs);
    PrefixedLength(srcs[1..]);
  }

  /**
   An empty source after a non-empty one still contributes a separator: the
   loop tests the accumulated bytes, not the source.
   */
  lemma EmptyMiddleSourceKeepsSeparators(a: Bytes, b: Bytes)
    requires |a| > 0
    ensures Join([a, [], b]) == a + Separator + Separator + b
  {
    assert [a, [], b][..2] == [a, []];
    assert [a, []][..1] == [a];
    assert [a][..0] == [];
    assert Join([a]) == a;
    assert Join([a, []]) == a + Separator;
  }

  /** When every source is readable, refresh produces exactly the startup document. */
  lemma RefreshAgreesWithStartup(results: seq<Option<Bytes>>)
    requires AllRead(results)
    ensures LoadSources(results) == Ok(RefreshSources(results))
  {
  }

  /**
   Partial failure: with the middle one of three sources unreadable, refresh
   still joins the first and the last.
   */
  lemma RefreshSkipsMissingMiddle(a: Bytes, b: Bytes)
    requires |a| > 0
    ensures RefreshSources([Some(a), None, Some(b)]) == a + Separator + b
    ensures LoadSources([Some(a), None, Some(b)]) == Err(1)
  {
    var results := [Some(a), None, Some(b)];
    assert results[..2] == [Some(a), None];
    assert results[..2][..1] == [Some(a)];
    assert [Some(a)][..0] == [];
    ReadableFirstAndLast(a, b);
    JoinPair(a, b);
  }

  /** The readable sources of a read sequence whose middle read failed. */
  lemma ReadableFirstAndLast(a: Bytes, b: Bytes)
    ensures Readable([Some(a), None, Some(b)]) == [a, b]
  {
    var results := [Some(a), None, Some(b)];
    assert results[..2] == [Some(a), None];
    assert [Some(a), None][..1] == [Some(a)];
    assert [Some(a)][..0] == [];
    assert Readable([Some(a)]) == [a];
    assert Readable([Some(a), None]) == [a];
  }

  /** Two sources, the first non-empty, are joined by exactly one separator. */
  lemma JoinPair(a: Bytes, b: Bytes)
    requires |a| > 0
    ensures Join([a, b]) == a + Separator + b
  {
    assert [a, b][..1] == [a];
    assert [a][..0] == [];
    assert Join([a]) == a;
  }
}
