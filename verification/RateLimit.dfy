/** Events kept apart by a minimum gap: how many can fall into an interval. */
module RateLimit {
  predicate Spaced(times: seq<real>, gap: real) {
    forall i :: 0 < i < |times| ==> times[i] - times[i - 1] >= gap
  }

  function CountIn(times: seq<real>, from: real, to: real): nat {
    if times == [] then 0
    else CountIn(times[..|times| - 1], from, to) + if from <= times[|times| - 1] <= to then 1 else 0
  }

  /** The room that `n` events take up, one gap each. */
  function Room(n: nat, gap: real): real {
    n as real * gap
  }

  lemma RoomGrows(n: nat, gap: real)
    ensures Room(n + 1, gap) == Room(n, gap) + gap && Room(0, gap) == 0.0
  {
  }

  /** `CountIn` is the number of events in the interval. */
  lemma {:induction false} CountInIsCardinality(times: seq<real>, from: real, to: real)
    ensures CountIn(times, from, to) == |set i | 0 <= i < |times| && from <= times[i] <= to|
  {
    if times == [] {
    } else {
      var n := |times| - 1;
      var before := times[..n];
      CountInIsCardinality(before, from, to);
      var all, some :=
        set i | 0 <= i < |times| && from <= times[i] <= to, set i | 0 <= i < |before| && from <= before[i] <= to;
      assert all == some + if from <= times[n] <= to then {n} else {};
    }
  }

  /** An interval of length `to - from` holds at most `(to - from) / gap + 1` events. */
  lemma {:induction false} CountBounded(times: seq<real>, gap: real, from: real, to: real)
    requires gap > 0.0 && Spaced(times, gap)
    ensures CountIn(times, from, to) > 0 ==> Room(CountIn(times, from, to), gap) <= to - from + gap
  {
    hide Room;
    if times == [] {
    } else {
      var before, last := times[..|times| - 1], times[|times| - 1];
      if from <= last <= to {
        EarlierStayEarlier(times, gap, from, to);
        CountBounded(before, gap, from, last - gap);
        RoomGrows(CountIn(before, from, last - gap), gap);
      } else {
        CountBounded(before, gap, from, to);
      }
    }
  }

  /** Everything before the last event lies at least one gap before it. */
  lemma {:induction false} EarlierStayEarlier(times: seq<real>, gap: real, from: real, to: real)
    requires gap > 0.0 && Spaced(times, gap) && times != [] && times[|times| - 1] <= to
    ensures CountIn(times[..|times| - 1], from, to) == CountIn(times[..|times| - 1], from, times[|times| - 1] - gap)
  {
    var n := |times| - 1;
    if n > 0 {
      CountAllUpTo(times[..n], gap, from, to);
      CountAllUpTo(times[..n], gap, from, times[n] - gap);
    }
  }

  /** Once `to` is past the last event it no longer matters. */
  lemma {:induction false} CountAllUpTo(times: seq<real>, gap: real, from: real, to: real)
    requires gap > 0.0 && Spaced(times, gap) && times != [] && times[|times| - 1] <= to
    ensures CountIn(times, from, to) == CountIn(times, from, times[|times| - 1])
  {
    var n := |times| - 1;
    if n == 0 {
    } else {
      CountAllUpTo(times[..n], gap, from, to);
      CountAllUpTo(times[..n], gap, from, times[n]);
    }
  }

  /** With a gap of one second, an interval of `length` seconds holds at most
      floor(length) + 1 events. */
  lemma PerSecondBound(times: seq<real>, from: real, length: real)
    requires Spaced(times, 1.0) && length >= 0.0
    ensures CountIn(times, from, from + length) <= length.Floor + 1
  {
    CountBounded(times, 1.0, from, from + length);
  }

  /** With a gap of 1 / rate, an interval of `length` seconds holds at most
      length * rate + 1 events. */
  lemma RateBound(times: seq<real>, rate: real, from: real, length: real)
    requires rate >= 1.0 && Spaced(times, 1.0 / rate) && length >= 0.0
    ensures CountIn(times, from, from + length) as real <= length * rate + 1.0
  {
    var n := CountIn(times, from, from + length);
    CountBounded(times, 1.0 / rate, from, from + length);
    if n > 0 {
      Unscale(n as real, length, rate);
    } else {
      assert length * rate >= 0.0;
    }
  }

  lemma Unscale(n: real, length: real, rate: real)
    requires rate > 0.0 && n * (1.0 / rate) <= length + 1.0 / rate
    ensures n <= length * rate + 1.0
  {
    var g := 1.0 / rate;
    assert g * rate == 1.0;
    assert n * g * rate == n;
    assert n * g * rate <= (length + g) * rate;
  }
}
