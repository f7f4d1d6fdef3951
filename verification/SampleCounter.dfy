/** The incremental sample-counter state, updated in place by its two callers. */
module SampleCounter {
  import opened Machine
  import opened CounterSpec

  class SampleCounterState {
    var previous: Option<uint32>
    var repeatedReads: uint64
    var skippedSamples: uint64
    var jumpEvents: uint64
    var maxDelta: uint32
    var consecutiveRepeats: uint32
    var maxConsecutiveRepeats: uint32

    /** Everything the two callers did since the last reset. */
    ghost var log: seq<Event>

    ghost predicate Valid()
      reads this
    {
      Shown(log) == Tally(
        previous, repeatedReads, skippedSamples, jumpEvents,
        maxDelta, consecutiveRepeats, maxConsecutiveRepeats)
    }

    constructor ()
      ensures Valid() && log == []
    {
      previous := None;
      repeatedReads, skippedSamples, jumpEvents := 0, 0, 0;
      maxDelta, consecutiveRepeats, maxConsecutiveRepeats := 0, 0, 0;
      log := [];
    }

    method Reset()
      modifies this
      ensures Valid() && log == []
    {
      previous := None;
      repeatedReads, skippedSamples, jumpEvents := 0, 0, 0;
      maxDelta, consecutiveRepeats, maxConsecutiveRepeats := 0, 0, 0;
      log := [];
    }

    method Observe(sampleCounter: uint32)
      requires Valid()
      modifies this
      ensures Valid() && log == old(log) + [Observed(sampleCounter)]
    {
      hide Shown;
      ShownAfterObserved(log, sampleCounter);
      log := log + [Observed(sampleCounter)];
      if previous.None? {
        previous := Some(sampleCounter);
        return;
      }
      var delta: uint32 := (sampleCounter - previous.value) % TWO32;
      if delta == 0 {
        repeatedReads := Wrap64(repeatedReads + 1);
        consecutiveRepeats := Wrap32(consecutiveRepeats + 1);
        maxConsecutiveRepeats := Max(maxConsecutiveRepeats, consecutiveRepeats);
      } else {
        consecutiveRepeats := 0;
        maxDelta := Max(maxDelta, delta);
        if delta > 1 {
          jumpEvents := Wrap64(jumpEvents + 1);
          skippedSamples := Wrap64(skippedSamples + (delta - 1));
        }
      }
      previous := Some(sampleCounter);
    }

    method Take(elapsedSec: real, rates: Rates) returns (result: Report)
      requires Valid() && RatesFit(rates)
      modifies this
      ensures Valid() && log == old(log) + [Taken(elapsedSec)]
      ensures Windows(log) == Windows(old(log)) + [Window(Cut(old(log)), |LogDeltas(log)|, elapsedSec)]
      ensures result == ReportOf(LogDeltas(log), Windows(log)[|Windows(log)| - 1], rates)
    {
      hide Shown, TallyOf;
      ShownAfterTaken(log, elapsedSec);
      log := log + [Taken(elapsedSec)];

      var elapsed := MaxReal(0.001, elapsedSec);
      var expectedRepeats := MaxReal(0.0, rates.read - rates.sensor);
      var expectedSkipped := MaxReal(0.0, rates.sensor - rates.read);
      RatioFits(rates);
      var largeJump: uint32 := Max(10, Ceil(rates.sensor / rates.read * 5.0));

      var expectedJumps := MinReal(rates.read, expectedSkipped);

      var actualRepeats := repeatedReads as real / elapsed;
      var actualSkipped := skippedSamples as real / elapsed;
      var actualJumps := jumpEvents as real / elapsed;
      result := Report(
        repeatedReads, skippedSamples, jumpEvents, maxDelta, consecutiveRepeats,
        Max(consecutiveRepeats, maxConsecutiveRepeats), elapsed,
        PerSecond(expectedRepeats, expectedSkipped, expectedJumps, actualRepeats, actualSkipped, actualJumps),
        largeJump, OK);

      repeatedReads, skippedSamples, jumpEvents, maxDelta := 0, 0, 0, 0;
      maxConsecutiveRepeats := consecutiveRepeats;

      var error :=
        || result.maxConsecutiveRepeats >= 50
        || actualRepeats > expectedRepeats * 2.0 + 100.0
        || actualSkipped > expectedSkipped * 2.0 + 50.0
        || result.maxDelta > largeJump * 5;
      var warn :=
        || result.maxConsecutiveRepeats >= 10
        || actualRepeats > expectedRepeats * 2.0 + 60.0
        || actualSkipped > expectedSkipped * 2.0 + 30.0
        || result.maxDelta > largeJump;
      result := result.(level := if error then ERROR else if warn then WARN else OK);
    }
  }

  // ------------------------------------------------- one more event in a log

  lemma ShownAfterObserved(log: seq<Event>, value: uint32)
    ensures Shown(log + [Observed(value)]) ==
            var t := Shown(log);
            if t.previous.None? then t.(previous := Some(value))
            else
              var d := Delta(t.previous.value, value);
              if d == 0 then
                var run := Wrap32(t.run + 1);
                t.(previous := Some(value), repeats := Wrap64(t.repeats + 1), run := run, longest := Max(t.longest, run))
              else
                t.(previous := Some(value), run := 0, maxDelta := Max(t.maxDelta, d),
                   jumps := if d > 1 then Wrap64(t.jumps + 1) else t.jumps,
                   skipped := Wrap64(t.skipped + (d - 1)))
  {
    hide TallyOf;
    var now := log + [Observed(value)];
    assert now[..|now| - 1] == log;
    if Seen(log) == [] {
      assert LogDeltas(now) == LogDeltas(log);
      PreviousIsCopied(LogDeltas(log), Cut(log), None, Some(value));
    } else {
      var d := Delta(Seen(log)[|Seen(log)| - 1], value);
      assert LogDeltas(now) == LogDeltas(log) + [d];
      TallyGrows(LogDeltas(log), Cut(log), d, Last(Seen(log)), value);
      PreviousIsCopied(LogDeltas(log), Cut(log), Last(Seen(log)), Last(Seen(log)));
    }
  }

  lemma PreviousIsCopied(ds: seq<uint32>, cut: nat, p: Option<uint32>, q: Option<uint32>)
    requires cut <= |ds|
    ensures TallyOf(ds, cut, q) == TallyOf(ds, cut, p).(previous := q)
    ensures TallyOf(ds, cut, p).previous == p
  {
  }

  lemma TallyGrows(ds: seq<uint32>, cut: nat, d: uint32, previous: Option<uint32>, value: uint32)
    requires cut <= |ds|
    ensures TallyOf(ds + [d], cut, Some(value)) ==
            var t := TallyOf(ds, cut, previous);
            if d == 0 then
              var run := Wrap32(t.run + 1);
              t.(previous := Some(value), repeats := Wrap64(t.repeats + 1), run := run, longest := Max(t.longest, run))
            else
              t.(previous := Some(value), run := 0, maxDelta := Max(t.maxDelta, d),
                 jumps := if d > 1 then Wrap64(t.jumps + 1) else t.jumps,
                 skipped := Wrap64(t.skipped + (d - 1)))
  {
    hide Repeats, Skipped, Jumps, MaxDelta, Run, LongestRun;
    OneMore(ds, cut, d);
    WrapAdd64(Repeats(ds[cut..]), 1);
    WrapAdd64(Jumps(ds[cut..]), 1);
    WrapAdd64(Skipped(ds[cut..]), Max(0, d - 1));
    WrapAdd32(Run(ds), 1);
  }

  lemma ShownAfterTaken(log: seq<Event>, elapsed: real)
    ensures var now := log + [Taken(elapsed)];
            && Windows(now) == Windows(log) + [Window(Cut(log), |LogDeltas(now)|, elapsed)]
            && LogDeltas(now) == LogDeltas(log)
            && Shown(now) == Shown(log).(repeats := 0, skipped := 0, jumps := 0, maxDelta := 0, longest := Shown(log).run)
            && TallyOf(LogDeltas(now)[..|LogDeltas(now)|], Cut(log), None) == Shown(log).(previous := None)
            && Shown(log).run <= Shown(log).longest
  {
    var now, ds := log + [Taken(elapsed)], LogDeltas(log);
    assert now[..|now| - 1] == log;
    assert ds[..|ds|] == ds && ds[|ds|..] == [];
  }

  lemma OneMore(ds: seq<uint32>, cut: nat, d: uint32)
    requires cut <= |ds|
    ensures (ds + [d])[cut..] == ds[cut..] + [d]
    ensures Repeats(ds[cut..] + [d]) == Repeats(ds[cut..]) + if d == 0 then 1 else 0
    ensures Skipped(ds[cut..] + [d]) == Skipped(ds[cut..]) + if d > 1 then d - 1 else 0
    ensures Jumps(ds[cut..] + [d]) == Jumps(ds[cut..]) + if d > 1 then 1 else 0
    ensures MaxDelta(ds[cut..] + [d]) == Max(MaxDelta(ds[cut..]), d)
    ensures Run(ds + [d]) == if d == 0 then Run(ds) + 1 else 0
    ensures LongestRun(ds + [d], cut) == Max(LongestRun(ds, cut), ShownRun(ds + [d]))
  {
    var window, all := ds[cut..] + [d], ds + [d];
    assert window[..|window| - 1] == ds[cut..];
    assert all[..|all| - 1] == ds;
  }
}
