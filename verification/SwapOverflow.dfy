/**
 Exactly when the swap protocol can hang.

 The daemon publishes completions without looking at the harvester's index. It never
 overwrites one, but a whole lap of completions looks like none. A queue depth below
 the ring capacity excludes that. The driver sets the depth equal to the capacity;
 then a run exists that fills the completion ring and stops with every request
 outstanding, until blk-mq times them out.
 */
module SwapOverflow {
  import opened Bits
  import opened Counting
  import opened SwapProtocol
  import opened SwapInvariant
  import opened SwapSafety
  import opened SwapDrain
  import opened SwapRuns

  /** Requests are outstanding and no thread can take a step. */
  ghost predicate Hung(c: Config, s: State) {
    Outstanding(s) > 0 && Sized(c, s) && forall step :: !Guard(c, s, step)
  }

  /** A reachable state is hung exactly when the completion ring holds a whole lap and everybody waits. */
  lemma HungIffStuck(c: Config, steps: seq<Step>, s: State)
    requires ValidConfig(c) && Runs(c, Init(c), steps, s)
    ensures Hung(c, s) <==> Stuck(c, s)
  {
    hide Inv, Guard, Apply, Stuck, NextStep;
    Reachable(c, steps, s);
    InvSized(c, s);
    QuietOrBusy(c, s);
    if Stuck(c, s) {
      StuckIsFinal(c, s);
    }
  }

  /** The daemon's publish: the harvester sees the new completion iff it does not complete a lap. */
  lemma PublishSeenIff(c: Config, s: State)
    requires ValidConfig(c) && Inv(c, s) && s.d.DWritten?
    ensures var s' := Apply(c, s, DPublish);
            s'.compRead != s'.compWrite <==> s.g.completed - s.g.popped + 1 < c.cap
  {
    RoomToPublish(c, s);
    hide RequestsHold, CompletionsHold, SlotsOwned, TagsOwned, HandHeld, HandFilled, HandWritten, HarvesterAt;
    hide StoresStaged, LoadsStaged, StoreSound, LoadsSound, EndingsSound;
    AdvanceWraps(s.compWrite, c.cap);
  }

  // ------------------------------------------------------------ shallow queues never hang

  function TagsFrom(log: seq<Entry>, from: nat): (r: seq<nat>)
    requires from <= |log|
    ensures |r| == |log| - from && forall i | 0 <= i < |r| :: r[i] == log[from + i].tag
    decreases |log| - from
  {
    if from == |log| then [] else [log[from].tag] + TagsFrom(log, from + 1)
  }

  /** In-flight requests have distinct tags, so there are at most as many as tags. */
  lemma AtMostDepth(c: Config, s: State)
    requires Inv(c, s)
    ensures Outstanding(s) <= c.depth
  {
    hide Inv;
    Exclusive(c, s);
    var e, log := |s.g.endings|, s.g.log;
    if e <= |log| {
      var tags := TagsFrom(log, e);
      forall i | 0 <= i < |tags| ensures tags[i] < c.depth {
        TagInFlight(c, s, e + i);
      }
      forall i, j | 0 <= i < j < |tags| ensures tags[i] != tags[j] {
        assert log[e + i].tag != log[e + j].tag;
      }
      Pigeonhole(tags, c.depth);
    }
  }

  lemma StuckIsDeep(c: Config, s: State)
    requires Inv(c, s) && Stuck(c, s)
    ensures c.cap <= c.depth && |s.g.log| > 0
  {
    hide RequestsHold, CompletionsHold, SlotsOwned, TagsOwned, HandHeld, HandFilled, HandWritten, DaemonAt;
    hide HarvesterAt, StoresStaged, LoadsStaged, StoreSound, LoadsSound, EndingsSound;
    AtMostDepth(c, s);
  }

  /** A ring of one entry accepts nothing. */
  lemma TinyRing(c: Config, s: State, step: Step)
    requires Inv(c, s) && Guard(c, s, step) && c.cap == 1 && |s.g.log| == 0
    ensures |Apply(c, s, step).g.log| == 0
  {
    hide RequestsHold, CompletionsHold, SlotsOwned, TagsOwned, HandHeld, HandFilled, DaemonAt, HarvesterAt;
    hide StoresStaged, LoadsStaged, StoreSound, LoadsSound, EndingsSound;
  }

  lemma {:induction false} TinyRun(c: Config, s: State, steps: seq<Step>, s': State)
    requires ValidConfig(c) && Inv(c, s) && Runs(c, s, steps, s') && c.cap == 1 && |s.g.log| == 0
    ensures |s'.g.log| == 0
    decreases |steps|
  {
    hide Inv, Guard, Apply;
    if steps != [] {
      StepKeeps(c, s, steps[0]);
      TinyRing(c, s, steps[0]);
      TinyRun(c, Apply(c, s, steps[0]), steps[1..], s');
    }
  }

  lemma RoomyNeverHangs(c: Config, steps: seq<Step>, s: State)
    requires ValidConfig(c) && (c.depth < c.cap || c.cap == 1) && Runs(c, Init(c), steps, s)
    ensures !Hung(c, s)
  {
    hide Inv, Guard, Apply, Stuck, Hung;
    HungIffStuck(c, steps, s);
    if Stuck(c, s) {
      Reachable(c, steps, s);
      StuckIsDeep(c, s);
      InitInv(c);
      TinyRun(c, Init(c), steps, s);
    }
  }

  // ------------------------------------------------------------ deep queues can

  /** After `t` requests, each submitted and answered with none harvested. */
  predicate AfterLaps(c: Config, s: State, t: nat) {
    && t <= c.cap && Sized(c, s)
    && s.k.KIdle? && s.d.DIdle? && s.h.HIdle?
    && s.reqWrite == s.reqRead == s.compWrite == Wrap(t, c.cap) && s.compRead == 0
    && |s.g.log| == t && s.g.endings == []
    && (forall b | 0 <= b < c.cap :: s.bitmap[b] <==> b < t)
    && (forall i | t <= i < c.depth :: s.rqs[i].None?)
  }

  function LapRead(): Bio { Bio(false, 0, []) }

  /** One more read submitted under tag `t`. */
  lemma SubmitLap(c: Config, s: State, t: nat) returns (steps: seq<Step>, m: State)
    requires ValidConfig(c) && 2 <= c.cap <= c.depth && t < c.cap && AfterLaps(c, s, t)
    ensures Runs(c, s, steps, m) && Sized(c, m)
    ensures m.k.KIdle? && m.d.DIdle? && m.h.HIdle?
    ensures m.reqRead == m.compWrite == Wrap(t, c.cap) && m.compRead == 0 && m.reqWrite == Wrap(Wrap(t, c.cap) + 1, c.cap)
    ensures m.requests[m.reqRead].op == OP_LOAD
    ensures |m.g.log| == t + 1 && m.g.endings == []
    ensures forall b | 0 <= b < c.cap :: m.bitmap[b] <==> b < t + 1
    ensures forall i | t + 1 <= i < c.depth :: m.rqs[i].None?
  {
    hide And, Advance, FirstZero, Runs;
    AdvanceWraps(s.reqWrite, c.cap);
    FirstZeroIs(s.bitmap, t);
    var s1 := Apply(c, s, KAlloc(t, LapRead()));
    var s2 := Apply(c, s1, KFill);
    var s3 := Apply(c, s2, KCheck);
    var s4 := Apply(c, s3, KWrite);
    m := Apply(c, s4, KPublish);
    steps := [KAlloc(t, LapRead()), KFill, KCheck, KWrite, KPublish];
    RunsFive(c, s, steps, s1, s2, s3, s4, m);
  }

  /** The daemon answers it, and nobody harvests. */
  lemma AnswerLap(c: Config, m: State, t: nat) returns (steps: seq<Step>, s': State)
    requires ValidConfig(c) && 2 <= c.cap <= c.depth && t < c.cap && Sized(c, m)
    requires m.k.KIdle? && m.d.DIdle? && m.h.HIdle?
    requires m.reqRead == m.compWrite == Wrap(t, c.cap) && m.compRead == 0 && m.reqWrite == Wrap(Wrap(t, c.cap) + 1, c.cap)
    requires m.requests[m.reqRead].op == OP_LOAD
    requires |m.g.log| == t + 1 && m.g.endings == []
    requires forall b | 0 <= b < c.cap :: m.bitmap[b] <==> b < t + 1
    requires forall i | t + 1 <= i < c.depth :: m.rqs[i].None?
    ensures Runs(c, m, steps, s') && AfterLaps(c, s', t + 1)
  {
    hide And, Advance, FirstZero, Runs;
    AdvanceWraps(m.reqRead, c.cap);
    var s1 := Apply(c, m, DPoll);
    var s2 := Apply(c, s1, DFetch);
    var s3 := Apply(c, s2, DLoad(false));
    var s4 := Apply(c, s3, DAdvance);
    var s5 := Apply(c, s4, DWrite);
    s' := Apply(c, s5, DPublish);
    RunsFive(c, m, [DPoll, DFetch, DLoad(false), DAdvance, DWrite], s1, s2, s3, s4, s5);
    RunsOne(c, s5, DPublish);
    steps := [DPoll, DFetch, DLoad(false), DAdvance, DWrite] + [DPublish];
    RunsConcat(c, m, [DPoll, DFetch, DLoad(false), DAdvance, DWrite], s5, [DPublish], s');
  }

  lemma {:induction false} Laps(c: Config, t: nat) returns (steps: seq<Step>, s: State)
    requires ValidConfig(c) && 2 <= c.cap <= c.depth && t <= c.cap
    ensures Runs(c, Init(c), steps, s) && AfterLaps(c, s, t)
  {
    hide Guard, Apply;
    if t == 0 {
      steps, s := [], Init(c);
    } else {
      var before, mid := Laps(c, t - 1);
      var submit, m := SubmitLap(c, mid, t - 1);
      var answer, after := AnswerLap(c, m, t - 1);
      RunsConcat(c, Init(c), before, mid, submit, m);
      RunsConcat(c, Init(c), before + submit, m, answer, after);
      steps, s := before + submit + answer, after;
    }
  }

  /** A lap's worth of unharvested completions looks like none at all. */
  lemma FullLapHangs(c: Config, s: State)
    requires c.cap >= 2 && AfterLaps(c, s, c.cap)
    ensures Hung(c, s) && Outstanding(s) == c.cap
  {
    FirstZeroIs(s.bitmap, c.cap);
  }

  /**
   Some run ends hung if and only if the queue depth reaches the ring capacity.
   (With a single ring entry nothing is ever accepted.)
   */
  lemma HangsIff(c: Config)
    requires ValidConfig(c)
    ensures (exists steps, s :: Runs(c, Init(c), steps, s) && Hung(c, s)) <==> c.depth >= c.cap >= 2
  {
    hide Guard, Apply, Hung;
    if c.depth >= c.cap >= 2 {
      var steps, s := Laps(c, c.cap);
      FullLapHangs(c, s);
    } else {
      assert c.cap > 0;
      forall steps, s | Runs(c, Init(c), steps, s) ensures !Hung(c, s) {
        RoomyNeverHangs(c, steps, s);
      }
    }
  }

  /** The driver's own configuration (`queue_depth = ring_entries`, as many staging slots) can hang. */
  lemma DriverHangs(entries: nat)
    requires IsPow2(entries) && entries >= 2
    ensures exists steps, s :: Runs(Config(entries, entries), Init(Config(entries, entries)), steps, s)
                               && Hung(Config(entries, entries), s)
  {
    HangsIff(Config(entries, entries));
  }
}
