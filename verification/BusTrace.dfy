/** The control words a driver puts on the bus, and what can be told from them. */
module BusTrace {
  /** A 32-bit control word. */
  datatype Word = Word(bits: bv32)

  const ZERO := Word(0)
  const SET_BIAS := Word(0x1)    // bit 0
  const CLEAR_BIAS := Word(0x4)  // bit 2

  function Or(a: Word, b: Word): Word {
    Word(a.bits | b.bits)
  }

  datatype Frame = Frame(control1: Word, control2: Word)

  /** What the driver does on the bus, one entry per completed call. */
  datatype BusOp = Open | Read | SetBias | ClearBias | Close

  predicate BiasBitsClear(base: Word) {
    base.bits & SET_BIAS.bits == 0 && base.bits & CLEAR_BIAS.bits == 0
  }

  function FramesOf(base: Word, op: BusOp): seq<Frame> {
    match op
    case Open => [Frame(base, ZERO)]
    case Read => [Frame(base, ZERO)]
    case SetBias => [Frame(Or(base, SET_BIAS), ZERO), Frame(base, ZERO)]
    case ClearBias => [Frame(Or(base, CLEAR_BIAS), ZERO), Frame(base, ZERO)]
    case Close => [Frame(ZERO, ZERO)]
  }

  function Render(base: Word, script: seq<BusOp>): seq<Frame> {
    if script == [] then []
    else Render(base, script[..|script| - 1]) + FramesOf(base, script[|script| - 1])
  }

  /** The frames of each call, bit for bit: setting the bias raises bit 0, clearing it bit 2. */
  lemma FramesMeaning(base: Word)
    ensures FramesOf(base, Open) == FramesOf(base, Read) == [Frame(base, Word(0))]
    ensures FramesOf(base, SetBias) == [Frame(Word(base.bits | 1), Word(0)), Frame(base, Word(0))]
    ensures FramesOf(base, ClearBias) == [Frame(Word(base.bits | 4), Word(0)), Frame(base, Word(0))]
    ensures FramesOf(base, Close) == [Frame(Word(0), Word(0))]
  {
    PulseWords(base);
    hide Or;
  }

  lemma PulseWords(base: Word)
    ensures Or(base, SET_BIAS) == Word(base.bits | 1) && Or(base, CLEAR_BIAS) == Word(base.bits | 4)
  {
  }

  predicate IsOpen(script: seq<BusOp>) {
    script != [] && !script[|script| - 1].Close?
  }

  /** Sessions: an Open exactly when the bus is closed, everything else when it is open. */
  predicate WellScripted(script: seq<BusOp>) {
    forall i :: 0 <= i < |script| ==> (script[i].Open? <==> !IsOpen(script[..i]))
  }

  // ------------------------------------------------------- seen on the bus alone

  /** base (base | (base+bit0) base | (base+bit2) base)* 0, after the first base. */
  predicate SessionTail(base: Word, frames: seq<Frame>) {
    || frames == [Frame(ZERO, ZERO)]
    || (|frames| > 0 && frames[0] == Frame(base, ZERO) && SessionTail(base, frames[1..]))
    || (|frames| > 1 && IsPulse(base, frames[0]) && frames[1] == Frame(base, ZERO) && SessionTail(base, frames[2..]))
  }

  predicate IsPulse(base: Word, f: Frame) {
    f == Frame(Or(base, SET_BIAS), ZERO) || f == Frame(Or(base, CLEAR_BIAS), ZERO)
  }

  predicate CompletedSession(base: Word, frames: seq<Frame>) {
    |frames| > 0 && frames[0] == Frame(base, ZERO) && SessionTail(base, frames[1..])
  }

  /** What has been sent of a session that is still open, after the first base. */
  predicate OpenTail(base: Word, frames: seq<Frame>) {
    || frames == []
    || (frames[0] == Frame(base, ZERO) && OpenTail(base, frames[1..]))
    || (|frames| > 1 && IsPulse(base, frames[0]) && frames[1] == Frame(base, ZERO) && OpenTail(base, frames[2..]))
  }

  predicate OpenSession(base: Word, frames: seq<Frame>) {
    |frames| > 0 && frames[0] == Frame(base, ZERO) && OpenTail(base, frames[1..])
  }

  predicate InSession(op: BusOp) {
    op.Read? || op.SetBias? || op.ClearBias?
  }

  lemma {:induction false} RenderAppends(base: Word, a: seq<BusOp>, b: seq<BusOp>)
    ensures Render(base, a + b) == Render(base, a) + Render(base, b)
  {
    hide FramesOf;
    if b == [] {
      assert a + b == a;
    } else {
      RenderAppends(base, a, b[..|b| - 1]);
      assert (a + b)[..|a + b| - 1] == a + b[..|b| - 1];
    }
  }

  lemma RenderOne(base: Word, op: BusOp)
    ensures Render(base, [op]) == FramesOf(base, op)
  {
    assert [op][..0] == [];
  }

  lemma {:induction false} TailOfScript(base: Word, ops: seq<BusOp>)
    requires forall i :: 0 <= i < |ops| ==> InSession(ops[i])
    ensures SessionTail(base, Render(base, ops + [Close]))
  {
    hide Render, Or;
    if ops == [] {
      assert ops + [Close] == [Close];
      RenderOne(base, Close);
    } else {
      TailOfScript(base, ops[1..]);
      var rest := Render(base, ops[1..] + [Close]);
      assert ops + [Close] == [ops[0]] + (ops[1..] + [Close]);
      RenderAppends(base, [ops[0]], ops[1..] + [Close]);
      RenderOne(base, ops[0]);
      var frames := FramesOf(base, ops[0]) + rest;
      assert frames[|FramesOf(base, ops[0])|..] == rest;
    }
  }

  lemma {:induction false} OpenTailOfScript(base: Word, ops: seq<BusOp>)
    requires forall i :: 0 <= i < |ops| ==> InSession(ops[i])
    ensures OpenTail(base, Render(base, ops))
  {
    hide Render, Or;
    if ops == [] {
      RenderNothing(base);
    } else {
      OpenTailOfScript(base, ops[1..]);
      var rest := Render(base, ops[1..]);
      assert ops == [ops[0]] + ops[1..];
      RenderAppends(base, [ops[0]], ops[1..]);
      RenderOne(base, ops[0]);
      var frames := FramesOf(base, ops[0]) + rest;
      assert frames[|FramesOf(base, ops[0])|..] == rest;
    }
  }

  lemma RenderNothing(base: Word)
    ensures Render(base, []) == []
  {
  }

  lemma {:induction false} ScriptOfTail(base: Word, frames: seq<Frame>) returns (ops: seq<BusOp>)
    requires SessionTail(base, frames)
    ensures forall i :: 0 <= i < |ops| ==> InSession(ops[i])
    ensures Render(base, ops + [Close]) == frames
  {
    hide Render;
    if frames == [Frame(ZERO, ZERO)] {
      ops := [];
      assert ops + [Close] == [Close];
      RenderOne(base, Close);
    } else {
      var op: BusOp;
      if frames[0] == Frame(base, ZERO) && SessionTail(base, frames[1..]) {
        op := Read;
      } else if frames[0] == Frame(Or(base, SET_BIAS), ZERO) {
        op := SetBias;
      } else {
        op := ClearBias;
      }
      var n := |FramesOf(base, op)|;
      var rest := ScriptOfTail(base, frames[n..]);
      ops := [op] + rest;
      assert ops + [Close] == [op] + (rest + [Close]);
      RenderAppends(base, [op], rest + [Close]);
      RenderOne(base, op);
      assert frames == FramesOf(base, op) + frames[n..];
    }
  }

  /** The language of a completed activation: exactly the frames of Open, any reads and
      bias pulses, Close. */
  lemma CompletedSessionIsScripted(base: Word, frames: seq<Frame>)
    ensures CompletedSession(base, frames) <==>
            exists ops: seq<BusOp> ::
              (forall i :: 0 <= i < |ops| ==> InSession(ops[i])) && frames == Render(base, [Open] + (ops + [Close]))
  {
    if CompletedSession(base, frames) {
      var ops := ScriptOfTail(base, frames[1..]);
      RenderAppends(base, [Open], ops + [Close]);
      RenderOne(base, Open);
      assert frames == [frames[0]] + frames[1..];
    }
    if ops: seq<BusOp> :|
      (forall i :: 0 <= i < |ops| ==> InSession(ops[i])) && frames == Render(base, [Open] + (ops + [Close])) {
      TailOfScript(base, ops);
      RenderAppends(base, [Open], ops + [Close]);
      RenderOne(base, Open);
      assert frames[1..] == Render(base, ops + [Close]);
    }
  }

  /** A whole run's frames: completed sessions one after the other. */
  ghost predicate Sessions(base: Word, frames: seq<Frame>)
    decreases |frames|
  {
    frames == [] ||
    exists k :: 0 <= k < |frames| && CompletedSession(base, frames[k..]) && Sessions(base, frames[..k])
  }

  /** Over any number of activations, the frames sent while the bus is closed again are
      completed sessions, and nothing else. */
  lemma {:induction false} RunIsSessions(base: Word, script: seq<BusOp>)
    requires WellScripted(script) && !IsOpen(script)
    ensures Sessions(base, Render(base, script))
    decreases |script|
  {
    hide CompletedSession;
    if script == [] {
    } else {
      var k := LastOpen(script, |script| - 1);
      var before := script[..k];
      assert forall i :: 0 <= i < k ==> before[..i] == script[..i];
      RunIsSessions(base, before);
      LastSession(base, script, k);
    }
  }

  lemma LastSession(base: Word, script: seq<BusOp>, k: nat)
    requires k < |script| - 1 && script[k].Open? && script[|script| - 1].Close?
    requires forall i :: k < i < |script| - 1 ==> InSession(script[i])
    requires Sessions(base, Render(base, script[..k]))
    ensures Sessions(base, Render(base, script))
  {
    hide CompletedSession, FramesOf, Render, InSession;
    var before, session, ops := script[..k], script[k..], script[k + 1..|script| - 1];
    assert script == before + session;
    assert session == [Open] + (ops + [Close]);
    assert forall i :: 0 <= i < |ops| ==> ops[i] == script[k + 1 + i];
    RenderAppends(base, before, session);
    CompletedSessionIsScripted(base, Render(base, session));
    SessionIsNotEmpty(base, Render(base, session));
    var frames, n := Render(base, script), |Render(base, before)|;
    assert frames[n..] == Render(base, session) && frames[..n] == Render(base, before);
  }

  /** A whole run's frames while the bus is open: completed sessions, and then an open one. */
  ghost predicate SessionsThenOpen(base: Word, frames: seq<Frame>) {
    exists k :: 0 <= k < |frames| && OpenSession(base, frames[k..]) && Sessions(base, frames[..k])
  }

  lemma RunEndsOpen(base: Word, script: seq<BusOp>)
    requires WellScripted(script) && IsOpen(script)
    ensures SessionsThenOpen(base, Render(base, script))
  {
    hide OpenTail, FramesOf, Render, InSession, Sessions, WellScripted, IsOpen;
    assert script[..|script|] == script;
    var k := LastOpen(script, |script|);
    var before, ops := script[..k], script[k + 1..];
    PrefixIsScripted(script, k);
    RunIsSessions(base, before);
    assert script == before + ([Open] + ops);
    RenderAppends(base, before, [Open] + ops);
    RenderAppends(base, [Open], ops);
    OpenTailOfScript(base, ops);
    OpenIsBase(base);
    var frames, n := Render(base, script), |Render(base, before)|;
    assert frames[n..] == [Frame(base, ZERO)] + Render(base, ops);
    assert frames[n..][1..] == Render(base, ops) && frames[..n] == Render(base, before);
  }

  lemma PrefixIsScripted(script: seq<BusOp>, k: nat)
    requires WellScripted(script) && k <= |script|
    ensures WellScripted(script[..k])
  {
    assert forall i :: 0 <= i < k ==> script[..k][..i] == script[..i];
  }

  lemma OpenIsBase(base: Word)
    ensures Render(base, [Open]) == [Frame(base, ZERO)]
  {
    RenderOne(base, Open);
  }

  lemma SessionIsNotEmpty(base: Word, frames: seq<Frame>)
    ensures CompletedSession(base, frames) ==> frames != []
  {
  }

  lemma {:induction false} LastOpen(script: seq<BusOp>, end: nat) returns (k: nat)
    requires WellScripted(script) && end <= |script| && IsOpen(script[..end])
    ensures k < end && script[k].Open? && !IsOpen(script[..k])
    ensures forall i :: k < i < end ==> InSession(script[i])
  {
    k := end - 1;
    while !script[k].Open?
      invariant 0 <= k < end
      invariant !script[k].Close?
      invariant forall i :: k < i < end ==> InSession(script[i])
      decreases k
    {
      assert IsOpen(script[..k]);
      k := k - 1;
    }
  }

  // ------------------------------------------------------------------- pulses

  predicate HasBit(f: Frame, bit: Word) {
    f.control1.bits & bit.bits != 0
  }

  predicate Quiet(f: Frame) {
    !HasBit(f, SET_BIAS) && !HasBit(f, CLEAR_BIAS)
  }

  /** Frames that carry `bit` while the frame before them (if any) does not. */
  function RisingEdges(frames: seq<Frame>, bit: Word): nat {
    if frames == [] then 0
    else
      var n := |frames| - 1;
      RisingEdges(frames[..n], bit) +
      if HasBit(frames[n], bit) && (n == 0 || !HasBit(frames[n - 1], bit)) then 1 else 0
  }

  function CountOps(script: seq<BusOp>, op: BusOp): nat {
    if script == [] then 0
    else CountOps(script[..|script| - 1], op) + if script[|script| - 1] == op then 1 else 0
  }

  /** The bias calls that the frames show, in order. */
  function BiasCalls(frames: seq<Frame>): seq<BusOp> {
    if frames == [] then []
    else
      var n := |frames| - 1;
      BiasCalls(frames[..n]) +
      if HasBit(frames[n], SET_BIAS) then [SetBias]
      else if HasBit(frames[n], CLEAR_BIAS) then [ClearBias]
      else []
  }

  function BiasOps(script: seq<BusOp>): seq<BusOp> {
    if script == [] then []
    else
      var op := script[|script| - 1];
      BiasOps(script[..|script| - 1]) + if op.SetBias? || op.ClearBias? then [op] else []
  }

  lemma FrameBits(base: Word)
    requires BiasBitsClear(base)
    ensures !HasBit(Frame(base, ZERO), SET_BIAS) && !HasBit(Frame(base, ZERO), CLEAR_BIAS)
    ensures !HasBit(Frame(ZERO, ZERO), SET_BIAS) && !HasBit(Frame(ZERO, ZERO), CLEAR_BIAS)
    ensures HasBit(Frame(Or(base, SET_BIAS), ZERO), SET_BIAS) && !HasBit(Frame(Or(base, SET_BIAS), ZERO), CLEAR_BIAS)
    ensures HasBit(Frame(Or(base, CLEAR_BIAS), ZERO), CLEAR_BIAS) && !HasBit(Frame(Or(base, CLEAR_BIAS), ZERO), SET_BIAS)
  {
    hide BiasBitsClear, HasBit, Or;
    SetPulseBits(base);
    ClearPulseBits(base);
    BaseBits(base);
    BaseBits(ZERO) by { ZeroIsClear(); }
  }

  lemma ZeroIsClear()
    ensures BiasBitsClear(ZERO)
  {
  }

  lemma BaseBits(base: Word)
    requires BiasBitsClear(base)
    ensures !HasBit(Frame(base, ZERO), SET_BIAS) && !HasBit(Frame(base, ZERO), CLEAR_BIAS)
  {
  }

  lemma SetPulseBits(base: Word)
    requires BiasBitsClear(base)
    ensures HasBit(Frame(Or(base, SET_BIAS), ZERO), SET_BIAS)
    ensures !HasBit(Frame(Or(base, SET_BIAS), ZERO), CLEAR_BIAS)
  {
  }

  lemma ClearPulseBits(base: Word)
    requires BiasBitsClear(base)
    ensures HasBit(Frame(Or(base, CLEAR_BIAS), ZERO), CLEAR_BIAS)
    ensures !HasBit(Frame(Or(base, CLEAR_BIAS), ZERO), SET_BIAS)
  {
  }

  /** What the frames of any script show, read off the frames alone. */
  lemma {:induction false} PulsesAreBiasCalls(base: Word, script: seq<BusOp>)
    requires BiasBitsClear(base)
    ensures BiasCalls(Render(base, script)) == BiasOps(script)
    ensures RisingEdges(Render(base, script), SET_BIAS) == CountOps(script, SetBias)
    ensures RisingEdges(Render(base, script), CLEAR_BIAS) == CountOps(script, ClearBias)
    ensures script != [] ==> Render(base, script) != [] && Quiet(Render(base, script)[|Render(base, script)| - 1])
  {
    hide HasBit, Or, BiasBitsClear, BiasCalls, RisingEdges;
    if script == [] {
      NoFrames();
    } else {
      FrameBits(base);
      var before, op := Render(base, script[..|script| - 1]), script[|script| - 1];
      PulsesAreBiasCalls(base, script[..|script| - 1]);
      var first := FramesOf(base, op)[0];
      OneMoreFrame(before, first);
      if |FramesOf(base, op)| == 2 {
        OneMoreFrame(before + [first], Frame(base, ZERO));
        assert Render(base, script) == before + [first] + [Frame(base, ZERO)];
      } else {
        assert Render(base, script) == before + [first];
      }
    }
  }

  lemma NoFrames()
    ensures BiasCalls([]) == [] && RisingEdges([], SET_BIAS) == 0 && RisingEdges([], CLEAR_BIAS) == 0
  {
  }

  lemma OneMoreFrame(frames: seq<Frame>, f: Frame)
    ensures BiasCalls(frames + [f]) ==
            BiasCalls(frames) +
            if HasBit(f, SET_BIAS) then [SetBias] else if HasBit(f, CLEAR_BIAS) then [ClearBias] else []
    ensures forall bit: Word :: RisingEdges(frames + [f], bit) ==
              RisingEdges(frames, bit) +
              if HasBit(f, bit) && (frames == [] || !HasBit(frames[|frames| - 1], bit)) then 1 else 0
  {
    hide HasBit;
    assert (frames + [f])[..|frames|] == frames;
  }

  /** Frame `i`: the second control word is 0, the bias bits are not both set, and a pulse
      stands between two base frames. */
  predicate Framed(base: Word, frames: seq<Frame>, i: nat)
    requires i < |frames|
  {
    && frames[i].control2 == ZERO
    && !(HasBit(frames[i], SET_BIAS) && HasBit(frames[i], CLEAR_BIAS))
    && (!Quiet(frames[i]) ==> 0 < i < |frames| - 1 && frames[i - 1] == frames[i + 1] == Frame(base, ZERO))
  }

  lemma {:induction false} PulsesAreFramed(base: Word, script: seq<BusOp>)
    requires BiasBitsClear(base) && WellScripted(script)
    ensures forall i :: 0 <= i < |Render(base, script)| ==> Framed(base, Render(base, script), i)
    ensures IsOpen(script) ==> Render(base, script) != [] && Render(base, script)[|Render(base, script)| - 1] == Frame(base, ZERO)
  {
    hide WellScripted, Framed, FramesOf, BiasBitsClear;
    if script == [] {
    } else {
      var before, op := script[..|script| - 1], script[|script| - 1];
      ShorterScript(script);
      PulsesAreFramed(base, before);
      FramesAreFramed(base, Render(base, before), op);
    }
  }

  lemma FramesAreFramed(base: Word, before: seq<Frame>, op: BusOp)
    requires BiasBitsClear(base)
    requires forall i :: 0 <= i < |before| ==> Framed(base, before, i)
    requires op.SetBias? || op.ClearBias? ==> before != [] && before[|before| - 1] == Frame(base, ZERO)
    ensures var frames := before + FramesOf(base, op);
            && (forall i :: 0 <= i < |frames| ==> Framed(base, frames, i))
            && frames != [] && frames[|frames| - 1] == Frame(if op.Close? then ZERO else base, ZERO)
  {
    hide HasBit, Or, BiasBitsClear;
    FrameBits(base);
    var frames, n := before + FramesOf(base, op), |before|;
    assert forall i :: 0 <= i < n ==> frames[i] == before[i];
    forall i | 0 <= i < |frames|
      ensures Framed(base, frames, i)
    {
      if i < n {
        assert Framed(base, before, i);
      } else {
        assert frames[i] == FramesOf(base, op)[i - n];
      }
    }
  }

  lemma ShorterScript(script: seq<BusOp>)
    requires WellScripted(script) && script != []
    ensures WellScripted(script[..|script| - 1])
    ensures script[|script| - 1].Open? <==> !IsOpen(script[..|script| - 1])
  {
    var before := script[..|script| - 1];
    assert forall j :: 0 <= j < |before| ==> before[..j] == script[..j];
  }
}
