/** What the windowed reports say about the true, unbounded sample counter. */
module CounterLaws {
  import opened Machine
  import opened CounterSpec

  // ------------------------------------------------- readings of a true count

  /** `values` are the 32-bit readings of the unbounded counter `truth`, which never
      moves back and never moves by 2^32 or more between two readings. */
  predicate Reads(values: seq<uint32>, truth: seq<nat>) {
    && |values| == |truth|
    && (forall i :: 0 <= i < |truth| ==> values[i] == truth[i] % TWO32)
    && (forall i :: 0 < i < |truth| ==> truth[i - 1] <= truth[i] < truth[i - 1] + TWO32)
  }

  function Identity(d: uint32): nat { d }

  lemma DeltaIsTrueStep(from: nat, to: nat)
    requires from <= to < from + TWO32
    ensures Delta(from % TWO32, to % TWO32) == to - from
  {
  }

  /** Rollover loses nothing: the deltas add up to the true distance. */
  lemma {:induction false} TotalIsDistance(values: seq<uint32>, truth: seq<nat>)
    requires Reads(values, truth) && truth != []
    ensures truth[0] + Count(Identity, Deltas(values)) == truth[|truth| - 1]
    ensures |Deltas(values)| == |truth| - 1
  {
    if |truth| == 1 {
    } else {
      var n := |truth| - 1;
      TotalIsDistance(values[..n], truth[..n]);
      DeltaIsTrueStep(truth[n - 1], truth[n]);
      assert Deltas(values) == Deltas(values[..n]) + [Delta(values[n - 1], values[n])];
      assert Deltas(values)[..n - 1] == Deltas(values[..n]);
    }
  }

  lemma {:induction false} TotalIsSkippedPlusMoves(ds: seq<uint32>)
    ensures Count(Identity, ds) == Skipped(ds) + |ds| - Repeats(ds)
  {
    if ds == [] {
    } else {
      TotalIsSkippedPlusMoves(ds[..|ds| - 1]);
    }
  }

  /** The counts are what they are called: numbers of deltas of a kind. */
  lemma CountsAreCardinalities(ds: seq<uint32>)
    ensures Repeats(ds) == |set i | 0 <= i < |ds| && ds[i] == 0|
    ensures Jumps(ds) == |set i | 0 <= i < |ds| && ds[i] > 1|
  {
    CountIsCardinality(RepeatWeight, (d: uint32) => d == 0, ds);
    CountIsCardinality(JumpWeight, (d: uint32) => d > 1, ds);
    var repeats, jumps := set i | 0 <= i < |ds| && ds[i] == 0, set i | 0 <= i < |ds| && ds[i] > 1;
    assert Where((d: uint32) => d == 0, ds) == repeats;
    assert Where((d: uint32) => d > 1, ds) == jumps;
  }

  function Where(kind: uint32 -> bool, ds: seq<uint32>): set<nat> {
    set i: nat | i < |ds| && kind(ds[i])
  }

  lemma {:induction false} CountIsCardinality(weight: uint32 -> nat, kind: uint32 -> bool, ds: seq<uint32>)
    requires forall d: uint32 :: weight(d) == if kind(d) then 1 else 0
    ensures Count(weight, ds) == |Where(kind, ds)|
  {
    if ds == [] {
    } else {
      var n := |ds| - 1;
      CountIsCardinality(weight, kind, ds[..n]);
      assert Where(kind, ds) == Where(kind, ds[..n]) + if kind(ds[n]) then {n} else {};
    }
  }

  lemma {:induction false} MaxDeltaIsMaximum(ds: seq<uint32>)
    ensures forall i :: 0 <= i < |ds| ==> ds[i] <= MaxDelta(ds)
    ensures if ds == [] then MaxDelta(ds) == 0 else MaxDelta(ds) in ds
  {
    if |ds| <= 1 {
    } else {
      MaxDeltaIsMaximum(ds[..|ds| - 1]);
    }
  }

  // ------------------------------------------------------------ runs of repeats

  /** `Run` is the length of the longest all-zero suffix. */
  lemma {:induction false} RunIsLongestZeroSuffix(ds: seq<uint32>)
    ensures Run(ds) <= |ds|
    ensures forall i :: |ds| - Run(ds) <= i < |ds| ==> ds[i] == 0
    ensures Run(ds) < |ds| ==> ds[|ds| - Run(ds) - 1] != 0
  {
    if ds == [] || ds[|ds| - 1] != 0 {
    } else {
      RunIsLongestZeroSuffix(ds[..|ds| - 1]);
    }
  }

  /** `LongestRun` is the maximum of the runs seen at the window's start and inside it. */
  lemma {:induction false} LongestRunIsMaximum(ds: seq<uint32>, start: nat)
    requires start <= |ds|
    ensures forall i :: start <= i <= |ds| ==> ShownRun(ds[..i]) <= LongestRun(ds, start)
    ensures exists i :: start <= i <= |ds| && ShownRun(ds[..i]) == LongestRun(ds, start)
    decreases |ds|
  {
    assert ds[..|ds|] == ds;
    if start == |ds| {
    } else {
      var shorter := ds[..|ds| - 1];
      LongestRunIsMaximum(shorter, start);
      assert forall i :: start <= i <= |shorter| ==> shorter[..i] == ds[..i];
      var i :| start <= i <= |shorter| && ShownRun(shorter[..i]) == LongestRun(shorter, start);
      assert ShownRun(ds[..i]) == LongestRun(shorter, start);
      assert ShownRun(ds[..|ds|]) == ShownRun(ds);
    }
  }

  // -------------------------------------------------------- tiling by windows

  predicate Inside(ws: seq<Window>, n: nat) {
    forall i :: 0 <= i < |ws| ==> ws[i].start <= ws[i].end <= n
  }

  lemma {:induction false} TilesCover(ws: seq<Window>, end: nat)
    requires Tiles(ws, end)
    ensures Inside(ws, end)
  {
    if ws == [] {
    } else {
      TilesCover(ws[..|ws| - 1], ws[|ws| - 1].start);
    }
  }

  /** Sum of a count over the windows. */
  function Sum(f: seq<uint32> -> nat, ds: seq<uint32>, ws: seq<Window>): nat
    requires Inside(ws, |ds|)
  {
    if ws == [] then 0
    else Sum(f, ds, ws[..|ws| - 1]) + f(ds[ws[|ws| - 1].start..ws[|ws| - 1].end])
  }

  function WorstDelta(ds: seq<uint32>, ws: seq<Window>): uint32
    requires Inside(ws, |ds|)
  {
    if ws == [] then 0
    else Max(WorstDelta(ds, ws[..|ws| - 1]), MaxDelta(ds[ws[|ws| - 1].start..ws[|ws| - 1].end]))
  }

  function WorstRun(ds: seq<uint32>, ws: seq<Window>): uint32
    requires Inside(ws, |ds|)
  {
    if ws == [] then 0
    else Max(WorstRun(ds, ws[..|ws| - 1]), LongestRun(ds[..ws[|ws| - 1].end], ws[|ws| - 1].start))
  }

  ghost predicate Additive(f: seq<uint32> -> nat) {
    f([]) == 0 && forall a, b :: f(a + b) == f(a) + f(b)
  }

  lemma {:induction false} SumOfTiles(f: seq<uint32> -> nat, ds: seq<uint32>, ws: seq<Window>, end: nat)
    requires Tiles(ws, end) && end <= |ds| && Additive(f)
    requires Inside(ws, |ds|)
    ensures Sum(f, ds, ws) == f(ds[..end])
  {
    if ws == [] {
      assert ds[..end] == [];
    } else {
      var w := ws[|ws| - 1];
      SumOfTiles(f, ds, ws[..|ws| - 1], w.start);
      assert ds[..end] == ds[..w.start] + ds[w.start..w.end];
    }
  }

  lemma {:induction false} WorstOfTiles(ds: seq<uint32>, ws: seq<Window>, end: nat)
    requires Tiles(ws, end) && end <= |ds| && ws != []
    requires Inside(ws, |ds|)
    ensures WorstDelta(ds, ws) == MaxDelta(ds[..end])
    ensures WorstRun(ds, ws) == LongestRun(ds[..end], 0)
  {
    var w, before := ws[|ws| - 1], ws[..|ws| - 1];
    assert ds[..end] == ds[..w.start] + ds[w.start..w.end];
    MaxDeltaSplits(ds[..w.start], ds[w.start..w.end]);
    if before != [] {
      WorstOfTiles(ds, before, w.start);
      LongestRunSplits(ds[..end], w.start);
      assert ds[..end][..w.start] == ds[..w.start];
    } else {
      assert ds[..w.start] == [];
    }
  }

  lemma {:induction false} MaxDeltaSplits(a: seq<uint32>, b: seq<uint32>)
    ensures MaxDelta(a + b) == Max(MaxDelta(a), MaxDelta(b))
  {
    if b == [] {
      assert a + b == a;
    } else {
      MaxDeltaSplits(a, b[..|b| - 1]);
      assert (a + b)[..|a + b| - 1] == a + b[..|b| - 1];
    }
  }

  lemma {:induction false} LongestRunSplits(ds: seq<uint32>, mid: nat)
    requires mid <= |ds|
    ensures LongestRun(ds, 0) == Max(LongestRun(ds[..mid], 0), LongestRun(ds, mid))
    decreases |ds|
  {
    if mid == |ds| {
      assert ds[..mid] == ds;
    } else {
      LongestRunSplits(ds[..|ds| - 1], mid);
      assert ds[..|ds| - 1][..mid] == ds[..mid];
    }
  }

  lemma CountsAreAdditive()
    ensures Additive(Repeats) && Additive(Skipped) && Additive(Jumps)
  {
    forall a: seq<uint32>, b: seq<uint32>
      ensures Repeats(a + b) == Repeats(a) + Repeats(b)
      ensures Skipped(a + b) == Skipped(a) + Skipped(b)
      ensures Jumps(a + b) == Jumps(a) + Jumps(b)
    {
      CountSplits(RepeatWeight, a, b);
      CountSplits(SkipWeight, a, b);
      CountSplits(JumpWeight, a, b);
    }
  }

  lemma {:induction false} CountSplits(weight: uint32 -> nat, a: seq<uint32>, b: seq<uint32>)
    ensures Count(weight, a + b) == Count(weight, a) + Count(weight, b)
  {
    if b == [] {
      assert a + b == a;
    } else {
      CountSplits(weight, a, b[..|b| - 1]);
      assert (a + b)[..|a + b| - 1] == a + b[..|b| - 1];
    }
  }

  // ------------------------------------------------------ the sequence of reports

  /** The taken windows followed by the open one. */
  function AllWindows(log: seq<Event>): (ws: seq<Window>)
    ensures Tiles(ws, |LogDeltas(log)|)
  {
    var ws := Windows(log) + [Window(Cut(log), |LogDeltas(log)|, 0.0)];
    assert ws[..|ws| - 1] == Windows(log);
    ws
  }

  /** Every report returned by a take in the history `log`, in order. */
  function Reports(log: seq<Event>, rates: Rates): seq<Report>
    requires RatesFit(rates)
  {
    TilesCover(Windows(log), Cut(log));
    seq(|Windows(log)|, i requires 0 <= i < |Windows(log)| => ReportOf(LogDeltas(log), Windows(log)[i], rates))
  }

  /** `Reports` is the record of what the takes returned: a later event never changes an
      earlier report, and a take adds exactly the report of the window it closes. */
  lemma ReportsGrow(log: seq<Event>, e: Event, rates: Rates)
    requires RatesFit(rates)
    ensures Reports(log + [e], rates) ==
            Reports(log, rates) +
            match e
            case Observed(_) => []
            case Taken(elapsed) =>
              [ReportOf(LogDeltas(log), Window(Cut(log), |LogDeltas(log)|, elapsed), rates)]
  {
    hide ReportOf, RatesFit, LogDeltas, Windows, Cut, Tiles;
    var now, ds := log + [e], LogDeltas(log);
    LogGrows(log, e);
    TilesCover(Windows(log), Cut(log));
    forall w: Window | w.start <= w.end <= |ds|
      ensures ReportOf(LogDeltas(now), w, rates) == ReportOf(ds, w, rates)
    {
      ReportIsStable(ds, LogDeltas(now), w, rates);
    }
  }

  lemma LogGrows(log: seq<Event>, e: Event)
    ensures |LogDeltas(log)| <= |LogDeltas(log + [e])|
    ensures LogDeltas(log + [e])[..|LogDeltas(log)|] == LogDeltas(log)
    ensures e.Taken? ==> LogDeltas(log + [e]) == LogDeltas(log)
    ensures Windows(log + [e]) ==
            Windows(log) + if e.Taken? then [Window(Cut(log), |LogDeltas(log)|, e.elapsed)] else []
  {
    var now := log + [e];
    assert now[..|now| - 1] == log;
  }

  lemma ReportIsStable(ds: seq<uint32>, later: seq<uint32>, w: Window, rates: Rates)
    requires RatesFit(rates) && w.start <= w.end <= |ds| <= |later| && later[..|ds|] == ds
    ensures ReportOf(later, w, rates) == ReportOf(ds, w, rates)
  {
    assert later[..w.end] == ds[..w.end];
  }

  /** Windowing is a homomorphism: however the takes cut the stream, the windows' counts
      add up to the counts of one single window, and their maxima to its maxima. */
  lemma WindowsRefineOnePass(log: seq<Event>)
    ensures Inside(AllWindows(log), |LogDeltas(log)|)
    ensures Sum(Repeats, LogDeltas(log), AllWindows(log)) == Repeats(LogDeltas(log))
    ensures Sum(Skipped, LogDeltas(log), AllWindows(log)) == Skipped(LogDeltas(log))
    ensures Sum(Jumps, LogDeltas(log), AllWindows(log)) == Jumps(LogDeltas(log))
    ensures WorstDelta(LogDeltas(log), AllWindows(log)) == MaxDelta(LogDeltas(log))
    ensures WorstRun(LogDeltas(log), AllWindows(log)) == LongestRun(LogDeltas(log), 0)
  {
    var ds, ws := LogDeltas(log), AllWindows(log);
    TilesCover(ws, |ds|);
    CountsAreAdditive();
    SumOfTiles(Repeats, ds, ws, |ds|);
    SumOfTiles(Skipped, ds, ws, |ds|);
    SumOfTiles(Jumps, ds, ws, |ds|);
    WorstOfTiles(ds, ws, |ds|);
    assert ds[..|ds|] == ds;
  }

  // ------------------------------------------------------------- conservation

  function RepeatsIn(r: Report): nat { r.repeatedReads }

  function SkippedIn(r: Report): nat { r.skippedSamples }

  function JumpsIn(r: Report): nat { r.jumpEvents }

  function DeltaIn(r: Report): uint32 { r.maxDelta }

  function RunIn(r: Report): uint32 { r.maxConsecutiveRepeats }

  /** Largest number over the reports. */
  function Worst(g: Report -> uint32, rs: seq<Report>): uint32 {
    if rs == [] then 0 else Max(Worst(g, rs[..|rs| - 1]), g(rs[|rs| - 1]))
  }

  /** Sum of a number over the reports. */
  function Reported(g: Report -> nat, rs: seq<Report>): nat {
    if rs == [] then 0 else Reported(g, rs[..|rs| - 1]) + g(rs[|rs| - 1])
  }

  /** No window holds 2^64 or more repeats or skipped samples. */
  predicate WindowsFit(log: seq<Event>) {
    TilesCover(AllWindows(log), |LogDeltas(log)|);
    EachFits(Repeats, LogDeltas(log), AllWindows(log)) && EachFits(Skipped, LogDeltas(log), AllWindows(log))
  }

  /** The numbers of a report, read off the stream. */
  lemma ReportNumbers(ds: seq<uint32>, w: Window, rates: Rates)
    requires RatesFit(rates) && w.start <= w.end <= |ds|
    ensures var r := ReportOf(ds, w, rates);
            && r.repeatedReads == Wrap64(Repeats(ds[w.start..w.end]))
            && r.skippedSamples == Wrap64(Skipped(ds[w.start..w.end]))
            && r.jumpEvents == Wrap64(Jumps(ds[w.start..w.end]))
            && r.maxDelta == MaxDelta(ds[w.start..w.end])
            && r.maxConsecutiveRepeats == LongestRun(ds[..w.end], w.start)
            && r.elapsed == Clamp(w.elapsed)
            && r.level == Judge(r, rates)
  {
    assert ds[..w.end][w.start..] == ds[w.start..w.end];
  }

  predicate EachFits(f: seq<uint32> -> nat, ds: seq<uint32>, ws: seq<Window>)
    requires Inside(ws, |ds|)
  {
    forall i :: 0 <= i < |ws| ==> f(ds[ws[i].start..ws[i].end]) < TWO64
  }

  predicate EachWraps(f: seq<uint32> -> nat, g: Report -> nat, ds: seq<uint32>, ws: seq<Window>, rs: seq<Report>)
    requires Inside(ws, |ds|)
  {
    |rs| == |ws| && forall i :: 0 <= i < |ws| ==> g(rs[i]) == Wrap64(f(ds[ws[i].start..ws[i].end]))
  }

  /** The sum of wrapped numbers is the true sum up to whole multiples of 2^64, and the true
      sum itself when no term wraps. */
  lemma {:induction false} WrappedSum(
    f: seq<uint32> -> nat, g: Report -> nat, ds: seq<uint32>, ws: seq<Window>, rs: seq<Report>)
    requires Inside(ws, |ds|)
    requires EachWraps(f, g, ds, ws, rs)
    ensures Whole(Sum(f, ds, ws) - Reported(g, rs))
    ensures Reported(g, rs) <= Sum(f, ds, ws)
    ensures Reported(g, rs) == Sum(f, ds, ws) <==> EachFits(f, ds, ws)
  {
    hide Wrap64, Whole, Inside;
    if ws == [] {
      NoneIsWhole();
    } else {
      var w, n := ws[|ws| - 1], |ws| - 1;
      InsideButLast(ws, |ds|);
      WrappedSum(f, g, ds, ws[..n], rs[..n]);
      assert EachFits(f, ds, ws) <==> EachFits(f, ds, ws[..n]) && f(ds[w.start..w.end]) < TWO64;
      AddOpen(Sum(f, ds, ws[..n]), Reported(g, rs[..n]), g(rs[n]), f(ds[w.start..w.end]));
    }
  }

  lemma InsideButLast(ws: seq<Window>, n: nat)
    requires Inside(ws, n) && ws != []
    ensures Inside(ws[..|ws| - 1], n) && ws[|ws| - 1].start <= ws[|ws| - 1].end <= n
  {
  }

  /** Conservation. For any interleaving of observations and takes since a reset, the true
      distance travelled is what was skipped plus what was observed and not repeated,
      summed over the taken reports and the open window: modulo 2^64 always, and without
      loss if every window fits its 64-bit counters. */
  lemma Conservation(log: seq<Event>, truth: seq<nat>, rates: Rates)
    requires RatesFit(rates) && Reads(Seen(log), truth) && truth != []
    ensures var travelled: int := truth[|truth| - 1] as int - truth[0];
            var skipped := Reported(SkippedIn, Reports(log, rates)) + Shown(log).skipped;
            var repeats := Reported(RepeatsIn, Reports(log, rates)) + Shown(log).repeats;
            && Whole(travelled - (skipped + (|truth| - 1) - repeats))
            && (WindowsFit(log) ==> travelled == skipped + (|truth| - 1) - repeats)
  {
    hide Reports, Shown, EachFits, Repeats, Skipped, Count, Whole, Reads, Reported, Inside, AllWindows, Windows, Cut;
    TotalIsDistance(Seen(log), truth);
    TotalIsSkippedPlusMoves(LogDeltas(log));
    ReportedTotals(log, rates);
    var skippedLost := Skipped(LogDeltas(log)) - (Reported(SkippedIn, Reports(log, rates)) + Shown(log).skipped);
    var repeatsLost := Repeats(LogDeltas(log)) - (Reported(RepeatsIn, Reports(log, rates)) + Shown(log).repeats);
    WholeCombine(skippedLost, repeatsLost, 0);
  }

  /** The reports and the open window together account for the whole stream: up to multiples
      of 2^64 always, and exactly if and only if no window's own count wraps. */
  lemma ReportedTotals(log: seq<Event>, rates: Rates)
    requires RatesFit(rates)
    ensures Inside(AllWindows(log), |LogDeltas(log)|)
    ensures var repeats := Reported(RepeatsIn, Reports(log, rates)) + Shown(log).repeats;
            var skipped := Reported(SkippedIn, Reports(log, rates)) + Shown(log).skipped;
            var jumps := Reported(JumpsIn, Reports(log, rates)) + Shown(log).jumps;
            && Whole(Repeats(LogDeltas(log)) - repeats)
            && Whole(Skipped(LogDeltas(log)) - skipped)
            && Whole(Jumps(LogDeltas(log)) - jumps)
            && (repeats == Repeats(LogDeltas(log)) <==> EachFits(Repeats, LogDeltas(log), AllWindows(log)))
            && (skipped == Skipped(LogDeltas(log)) <==> EachFits(Skipped, LogDeltas(log), AllWindows(log)))
            && (jumps == Jumps(LogDeltas(log)) <==> EachFits(Jumps, LogDeltas(log), AllWindows(log)))
  {
    hide ReportOf, Reports, Repeats, Skipped, Jumps, Shown, Whole, Sum, Reported, EachFits, EachWraps, Windows, LogDeltas, Cut, Tiles;
    WindowsRefineOnePass(log);
    TilesCover(Windows(log), Cut(log));
    ReportsRead(log, rates);
    SumWithOpen(log, Repeats, RepeatsIn, Reports(log, rates), Shown(log).repeats);
    SumWithOpen(log, Skipped, SkippedIn, Reports(log, rates), Shown(log).skipped);
    SumWithOpen(log, Jumps, JumpsIn, Reports(log, rates), Shown(log).jumps);
  }

  /** The worst of what the takes returned, and of the open window, is the worst of the whole
      stream. */
  lemma ReportedMaxima(log: seq<Event>, rates: Rates)
    requires RatesFit(rates)
    ensures Max(Worst(DeltaIn, Reports(log, rates)), Shown(log).maxDelta) == MaxDelta(LogDeltas(log))
    ensures Max(Worst(RunIn, Reports(log, rates)), Shown(log).longest) == LongestRun(LogDeltas(log), 0)
  {
    hide ReportOf, Reports, MaxDelta, LongestRun, Windows, LogDeltas, Cut, Tiles, ShownRun;
    var ds, ws, rs := LogDeltas(log), Windows(log), Reports(log, rates);
    WindowsRefineOnePass(log);
    TilesCover(ws, Cut(log));
    MaximaRead(log, rates);
    WorstIsReported(ds, ws, rs);
    var all := AllWindows(log);
    assert all[..|all| - 1] == ws;
    assert ds[..|ds|] == ds && ds[Cut(log)..|ds|] == ds[Cut(log)..];
  }

  lemma MaximaRead(log: seq<Event>, rates: Rates)
    requires RatesFit(rates) && Inside(Windows(log), |LogDeltas(log)|)
    ensures |Reports(log, rates)| == |Windows(log)|
    ensures forall i :: 0 <= i < |Windows(log)| ==>
              ReadsMaxima(LogDeltas(log), Windows(log)[i], Reports(log, rates)[i])
  {
    hide ReportOf;
    forall i | 0 <= i < |Windows(log)|
      ensures ReadsMaxima(LogDeltas(log), Windows(log)[i], Reports(log, rates)[i])
    {
      ReportNumbers(LogDeltas(log), Windows(log)[i], rates);
    }
  }

  predicate ReadsMaxima(ds: seq<uint32>, w: Window, r: Report)
    requires w.start <= w.end <= |ds|
  {
    DeltaIn(r) == MaxDelta(ds[w.start..w.end]) && RunIn(r) == LongestRun(ds[..w.end], w.start)
  }

  lemma {:induction false} WorstIsReported(ds: seq<uint32>, ws: seq<Window>, rs: seq<Report>)
    requires Inside(ws, |ds|) && |rs| == |ws|
    requires forall i :: 0 <= i < |ws| ==> ReadsMaxima(ds, ws[i], rs[i])
    ensures Worst(DeltaIn, rs) == WorstDelta(ds, ws)
    ensures Worst(RunIn, rs) == WorstRun(ds, ws)
  {
    hide MaxDelta, LongestRun, Inside;
    if ws == [] {
    } else {
      InsideButLast(ws, |ds|);
      WorstIsReported(ds, ws[..|ws| - 1], rs[..|rs| - 1]);
      assert ReadsMaxima(ds, ws[|ws| - 1], rs[|rs| - 1]);
    }
  }

  lemma ReportsRead(log: seq<Event>, rates: Rates)
    requires RatesFit(rates) && Inside(Windows(log), |LogDeltas(log)|)
    ensures EachWraps(Repeats, RepeatsIn, LogDeltas(log), Windows(log), Reports(log, rates))
    ensures EachWraps(Skipped, SkippedIn, LogDeltas(log), Windows(log), Reports(log, rates))
    ensures EachWraps(Jumps, JumpsIn, LogDeltas(log), Windows(log), Reports(log, rates))
    ensures Shown(log).repeats == Wrap64(Repeats(LogDeltas(log)[Cut(log)..]))
    ensures Shown(log).skipped == Wrap64(Skipped(LogDeltas(log)[Cut(log)..]))
    ensures Shown(log).jumps == Wrap64(Jumps(LogDeltas(log)[Cut(log)..]))
  {
    hide ReportOf;
    forall i | 0 <= i < |Windows(log)|
      ensures var w, r := Windows(log)[i], Reports(log, rates)[i];
              && RepeatsIn(r) == Wrap64(Repeats(LogDeltas(log)[w.start..w.end]))
              && SkippedIn(r) == Wrap64(Skipped(LogDeltas(log)[w.start..w.end]))
              && JumpsIn(r) == Wrap64(Jumps(LogDeltas(log)[w.start..w.end]))
    {
      ReportNumbers(LogDeltas(log), Windows(log)[i], rates);
    }
  }

  /** One count, over the reports and the open window. */
  lemma SumWithOpen(log: seq<Event>, f: seq<uint32> -> nat, g: Report -> nat, rs: seq<Report>, open: uint64)
    requires Inside(AllWindows(log), |LogDeltas(log)|) && Inside(Windows(log), |LogDeltas(log)|)
    requires EachWraps(f, g, LogDeltas(log), Windows(log), rs)
    requires open == Wrap64(f(LogDeltas(log)[Cut(log)..]))
    requires Sum(f, LogDeltas(log), AllWindows(log)) == f(LogDeltas(log))
    ensures Whole(f(LogDeltas(log)) - (Reported(g, rs) + open))
    ensures Reported(g, rs) + open == f(LogDeltas(log)) <==> EachFits(f, LogDeltas(log), AllWindows(log))
  {
    hide Whole, Wrap64, Reported, EachFits, EachWraps, Windows, LogDeltas, Cut, Inside;
    WrappedSum(f, g, LogDeltas(log), Windows(log), rs);
    OpenWindowAdds(log, f);
    AddOpen(Sum(f, LogDeltas(log), Windows(log)), Reported(g, rs), open, f(LogDeltas(log)[Cut(log)..]));
  }

  /** The open window is the last of all windows. */
  lemma OpenWindowAdds(log: seq<Event>, f: seq<uint32> -> nat)
    requires Inside(AllWindows(log), |LogDeltas(log)|) && Inside(Windows(log), |LogDeltas(log)|)
    ensures Sum(f, LogDeltas(log), AllWindows(log)) ==
            Sum(f, LogDeltas(log), Windows(log)) + f(LogDeltas(log)[Cut(log)..])
    ensures EachFits(f, LogDeltas(log), AllWindows(log)) <==>
            EachFits(f, LogDeltas(log), Windows(log)) && f(LogDeltas(log)[Cut(log)..]) < TWO64
  {
    hide Cut, LogDeltas, Windows;
    var ds, ws, taken := LogDeltas(log), AllWindows(log), Windows(log);
    assert ws[..|ws| - 1] == taken && ws[|ws| - 1] == Window(Cut(log), |ds|, 0.0);
    assert forall i :: 0 <= i < |taken| ==> ws[i] == taken[i];
    assert ds[Cut(log)..|ds|] == ds[Cut(log)..];
    if EachFits(f, ds, ws) {
      assert f(ds[ws[|ws| - 1].start..ws[|ws| - 1].end]) < TWO64;
      forall i | 0 <= i < |taken|
        ensures f(ds[taken[i].start..taken[i].end]) < TWO64
      {
        assert f(ds[ws[i].start..ws[i].end]) < TWO64;
      }
    }
  }

  lemma AddOpen(total: nat, reported: nat, open: nat, x: nat)
    requires Whole(total - reported) && open == Wrap64(x)
    ensures Whole(total + x - (reported + open))
    ensures open <= x
    ensures reported <= total ==> (reported + open == total + x <==> total == reported && x < TWO64)
  {
    NoneIsWhole();
    WholeCombine(total - reported, 0, x);
    assert total + x - (reported + open) == total - reported + x - Wrap64(x);
  }

  lemma NoneIsWhole()
    ensures Whole(0)
  {
  }

  // ------------------------------------------------------------------- alarms

  /** A window's `maxConsecutiveRepeats` reaches `k` exactly when some run, counted back
      across earlier windows, shows `k` or more at the window's start or inside it; and
      such a run raises the level in that window, however takes split it. */
  lemma AlarmExactness(log: seq<Event>, rates: Rates, n: nat, k: uint32)
    requires RatesFit(rates) && n < |Windows(log)|
    ensures var ds, w, r := LogDeltas(log), Windows(log)[n], Reports(log, rates)[n];
            && w.start <= w.end <= |ds|
            && (r.maxConsecutiveRepeats >= k <==>
                exists i :: w.start <= i <= w.end && Wrap32(Run(ds[..i])) >= k)
            && (forall i :: w.start <= i <= w.end && Run(ds[..i]) < TWO32 ==>
                  && (Run(ds[..i]) >= 50 ==> r.level == ERROR)
                  && (Run(ds[..i]) >= 10 ==> r.level != OK))
  {
    hide ReportOf, Judge, Run, LongestRun, Wrap32;
    var ds, w, r := LogDeltas(log), Windows(log)[n], Reports(log, rates)[n];
    TilesCover(Windows(log), Cut(log));
    ReportNumbers(ds, w, rates);
    RunsInside(ds, w.start, w.end);
    RunRaisesLevel(r, rates);
    forall i | w.start <= i <= w.end && Run(ds[..i]) < TWO32
      ensures Wrap32(Run(ds[..i])) == Run(ds[..i])
    {
      SmallWrap(Run(ds[..i]));
    }
  }

  lemma SmallWrap(n: nat)
    requires n < TWO32
    ensures Wrap32(n) == n
  {
  }

  lemma RunRaisesLevel(r: Report, rates: Rates)
    requires RatesFit(rates) && r.elapsed > 0.0 && r.level == Judge(r, rates)
    ensures r.maxConsecutiveRepeats >= 50 ==> r.level == ERROR
    ensures r.maxConsecutiveRepeats >= 10 ==> r.level != OK
  {
  }

  lemma RunsInside(ds: seq<uint32>, start: nat, end: nat)
    requires start <= end <= |ds|
    ensures forall i :: start <= i <= end ==> Wrap32(Run(ds[..i])) <= LongestRun(ds[..end], start)
    ensures exists i :: start <= i <= end && Wrap32(Run(ds[..i])) == LongestRun(ds[..end], start)
  {
    LongestRunIsMaximum(ds[..end], start);
    forall i | start <= i <= end
      ensures ds[..end][..i] == ds[..i] && ShownRun(ds[..i]) <= LongestRun(ds[..end], start)
    {
      assert ds[..end][..i] == ds[..i];
    }
    var i :| start <= i <= end && ShownRun(ds[..end][..i]) == LongestRun(ds[..end], start);
    assert Wrap32(Run(ds[..i])) == LongestRun(ds[..end], start);
  }

  // -------------------------------------------------------------------- drift

  /** What the WARN threshold lets pass in `e` seconds. */
  function Allowance(e: real, expected: real, margin: real): real {
    e * (2.0 * expected + margin)
  }

  function Elapsed(rs: seq<Report>): real {
    if rs == [] then 0.0 else Elapsed(rs[..|rs| - 1]) + rs[|rs| - 1].elapsed
  }

  /** As long as every report is OK, the true counter can drift away from the number of
      observations only within the WARN margins times the time covered. */
  lemma DriftBound(log: seq<Event>, truth: seq<nat>, rates: Rates)
    requires RatesFit(rates) && Reads(Seen(log), truth) && truth != []
    requires WindowsFit(log) && log != [] && log[|log| - 1].Taken?
    requires forall i :: 0 <= i < |Reports(log, rates)| ==> Reports(log, rates)[i].level == OK
    ensures var drift := (truth[|truth| - 1] as int - truth[0] - (|truth| - 1)) as real;
            var e := Elapsed(Reports(log, rates));
            var repeatRate := if rates.read > rates.sensor then rates.read - rates.sensor else 0.0;
            var skipRate := if rates.sensor > rates.read then rates.sensor - rates.read else 0.0;
            -(e * (2.0 * repeatRate + 60.0)) <= drift <= e * (2.0 * skipRate + 30.0)
  {
    hide Reads, Seen, WindowsFit, Reports, Elapsed;
    DriftAllowed(log, truth, rates);
  }

  lemma DriftAllowed(log: seq<Event>, truth: seq<nat>, rates: Rates)
    requires RatesFit(rates) && Reads(Seen(log), truth) && truth != []
    requires WindowsFit(log) && log != [] && log[|log| - 1].Taken?
    requires forall i :: 0 <= i < |Reports(log, rates)| ==> Reports(log, rates)[i].level == OK
    ensures var drift := (truth[|truth| - 1] as int - truth[0] - (|truth| - 1)) as real;
            var e := Elapsed(Reports(log, rates));
            && -Allowance(e, ExpectedRepeats(rates), 60.0) <= drift
            && drift <= Allowance(e, ExpectedSkipped(rates), 30.0)
  {
    hide ReportOf, Within, Elapsed, Reported, Shown, Allowance, ExpectedRepeats, ExpectedSkipped;
    Conservation(log, truth, rates);
    var rs := Reports(log, rates);
    TilesCover(Windows(log), Cut(log));
    OpenWindowIsEmpty(log);
    forall i | 0 <= i < |rs|
      ensures rs[i].elapsed > 0.0 && Within(rs[i], rates, 10, 60.0, 30.0, LargeJump(rates))
    {
      ReportNumbers(LogDeltas(log), Windows(log)[i], rates);
    }
    OkReportsBound(rs, rates);
  }

  /** The same in wall-clock time: `t` is the time from the reset to the last take, and a
      window shorter than a millisecond counts as one millisecond. */
  lemma DriftOverTime(log: seq<Event>, truth: seq<nat>, rates: Rates)
    requires RatesFit(rates) && Reads(Seen(log), truth) && truth != []
    requires WindowsFit(log) && log != [] && log[|log| - 1].Taken?
    requires forall i :: 0 <= i < |Reports(log, rates)| ==> Reports(log, rates)[i].level == OK
    requires ClockMovesOn(log, 0.0)
    ensures var drift := (truth[|truth| - 1] as int - truth[0] - (|truth| - 1)) as real;
            var t := TakenTime(log) + if ClockMovesOn(log, 0.001) then 0.0 else 0.001 * |Windows(log)| as real;
            var repeatRate := if rates.read > rates.sensor then rates.read - rates.sensor else 0.0;
            var skipRate := if rates.sensor > rates.read then rates.sensor - rates.read else 0.0;
            -(t * (2.0 * repeatRate + 60.0)) <= drift <= t * (2.0 * skipRate + 30.0)
  {
    hide Reads, Seen, WindowsFit, Reports, TakenTime, ClockMovesOn, Elapsed, Windows;
    DriftBound(log, truth, rates);
    ElapsedIsTime(log, rates);
    var e, t := Elapsed(Reports(log, rates)),
      TakenTime(log) + if ClockMovesOn(log, 0.001) then 0.0 else 0.001 * |Windows(log)| as real;
    RatesExpectNoLess(rates);
    AllowanceGrows(e, t, ExpectedRepeats(rates), 60.0);
    AllowanceGrows(e, t, ExpectedSkipped(rates), 30.0);
  }

  /** Every take comes at least `least` seconds after the one before it. */
  predicate ClockMovesOn(log: seq<Event>, least: real) {
    forall i :: 0 <= i < |log| && log[i].Taken? ==> log[i].elapsed >= least
  }

  lemma {:induction false} ElapsedIsTime(log: seq<Event>, rates: Rates)
    requires RatesFit(rates) && ClockMovesOn(log, 0.0)
    ensures TakenTime(log) <= Elapsed(Reports(log, rates)) <= TakenTime(log) + 0.001 * |Windows(log)| as real
    ensures ClockMovesOn(log, 0.001) ==> Elapsed(Reports(log, rates)) == TakenTime(log)
  {
    hide Reports, Windows, Elapsed, RatesFit;
    if log == [] {
      NothingElapsed(rates);
    } else {
      var past, e := log[..|log| - 1], log[|log| - 1];
      assert past + [e] == log;
      OneMoreTaken(past, e, rates);
      ElapsedIsTime(past, rates);
    }
  }

  lemma NothingElapsed(rates: Rates)
    requires RatesFit(rates)
    ensures Elapsed(Reports([], rates)) == 0.0 && |Windows([])| == 0
  {
    assert Reports([], rates) == [];
  }

  lemma OneMoreTaken(past: seq<Event>, e: Event, rates: Rates)
    requires RatesFit(rates)
    ensures Elapsed(Reports(past + [e], rates)) == Elapsed(Reports(past, rates)) + if e.Taken? then Clamp(e.elapsed) else 0.0
    ensures |Windows(past + [e])| == |Windows(past)| + if e.Taken? then 1 else 0
  {
    ReportsGrow(past, e, rates);
    LogGrows(past, e);
    hide Reports, Windows, LogDeltas, Cut, RatesFit, ReportOf, Elapsed;
    if e.Taken? {
      var w := Window(Cut(past), |LogDeltas(past)|, e.elapsed);
      ReportNumbers(LogDeltas(past), w, rates);
      OneMoreElapsed(Reports(past, rates), ReportOf(LogDeltas(past), w, rates));
    } else {
      assert Reports(past, rates) + [] == Reports(past, rates);
    }
  }

  lemma OneMoreElapsed(rs: seq<Report>, r: Report)
    ensures Elapsed(rs + [r]) == Elapsed(rs) + r.elapsed
  {
    assert (rs + [r])[..|rs|] == rs;
  }

  lemma RatesExpectNoLess(rates: Rates)
    ensures ExpectedRepeats(rates) >= 0.0 && ExpectedSkipped(rates) >= 0.0
  {
  }

  lemma AllowanceGrows(d: real, e: real, expected: real, margin: real)
    requires d <= e && expected >= 0.0 && margin >= 0.0
    ensures Allowance(d, expected, margin) <= Allowance(e, expected, margin)
  {
  }

  lemma OpenWindowIsEmpty(log: seq<Event>)
    requires log != [] && log[|log| - 1].Taken?
    ensures Shown(log).repeats == 0 && Shown(log).skipped == 0
  {
    assert LogDeltas(log)[Cut(log)..] == [];
  }

  lemma {:induction false} OkReportsBound(rs: seq<Report>, rates: Rates)
    requires RatesFit(rates)
    requires forall i :: 0 <= i < |rs| ==>
               rs[i].elapsed > 0.0 && Within(rs[i], rates, 10, 60.0, 30.0, LargeJump(rates))
    ensures Reported(RepeatsIn, rs) as real <= Allowance(Elapsed(rs), ExpectedRepeats(rates), 60.0)
    ensures Reported(SkippedIn, rs) as real <= Allowance(Elapsed(rs), ExpectedSkipped(rates), 30.0)
  {
    hide Within, ExpectedRepeats, ExpectedSkipped, Allowance;
    if rs == [] {
      AllowanceAdds(0.0, 0.0, ExpectedRepeats(rates), 60.0);
      AllowanceAdds(0.0, 0.0, ExpectedSkipped(rates), 30.0);
    } else {
      var r, before := rs[|rs| - 1], rs[..|rs| - 1];
      OkReportsBound(before, rates);
      OkReportBounds(r, rates);
      AllowanceAdds(Elapsed(before), r.elapsed, ExpectedRepeats(rates), 60.0);
      AllowanceAdds(Elapsed(before), r.elapsed, ExpectedSkipped(rates), 30.0);
    }
  }

  lemma OkReportBounds(r: Report, rates: Rates)
    requires RatesFit(rates) && r.elapsed > 0.0 && Within(r, rates, 10, 60.0, 30.0, LargeJump(rates))
    ensures r.repeatedReads as real <= Allowance(r.elapsed, ExpectedRepeats(rates), 60.0)
    ensures r.skippedSamples as real <= Allowance(r.elapsed, ExpectedSkipped(rates), 30.0)
  {
    RateBoundsCount(r.repeatedReads as real, r.elapsed, 2.0 * ExpectedRepeats(rates) + 60.0);
    RateBoundsCount(r.skippedSamples as real, r.elapsed, 2.0 * ExpectedSkipped(rates) + 30.0);
  }

  lemma RateBoundsCount(count: real, e: real, c: real)
    requires e > 0.0 && count / e <= c
    ensures count <= e * c
  {
    assert count == count / e * e;
  }

  lemma AllowanceAdds(d: real, e: real, expected: real, margin: real)
    ensures Allowance(d + e, expected, margin) == Allowance(d, expected, margin) + Allowance(e, expected, margin)
  {
  }
}
