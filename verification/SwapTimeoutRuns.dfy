/**
 Runs of the swap protocol with timeouts anywhere in them, and exactly when reads still
 end right.

 A timeout clears a bit of a slot that is still in use. That alone does no harm: the
 state is as good as the one with the bitmap repaired, until a submission takes a slot
 in use.
 */
module SwapTimeoutRuns {
  import opened Bits
  import opened Pages
  import opened SwapProtocol
  import opened SwapInvariant
  import opened SwapSafety
  import opened SwapRuns
  import opened SwapTimeout

  datatype TStep = Take(step: Step) | Expire(tag: nat)

  /** A timeout may strike any request blk-mq knows. */
  predicate TGuard(c: Config, s: State, t: TStep)
    requires Sized(c, s)
  {
    match t
    case Take(step) => Guard(c, s, step)
    case Expire(tag) => tag < c.depth && s.rqs[tag].Some? && s.cmds[tag].slot < c.cap
  }

  function TApply(c: Config, s: State, t: TStep): State
    requires Sized(c, s) && TGuard(c, s, t)
  {
    match t
    case Take(step) => Apply(c, s, step)
    case Expire(tag) => Timeout(s, tag)
  }

  ghost predicate TRuns(c: Config, s: State, ts: seq<TStep>, s': State)
    decreases |ts|
  {
    if ts == [] then s' == s
    else Sized(c, s) && TGuard(c, s, ts[0]) && TRuns(c, TApply(c, s, ts[0]), ts[1..], s')
  }

  /** The step takes no slot that is still in use. */
  predicate Careful(c: Config, s: State, t: TStep)
    requires Sized(c, s) && TGuard(c, s, t)
  {
    t.Take? && t.step.KAlloc? ==> s.g.slotUse[FirstZero(s.bitmap)] == Free
  }

  ghost predicate CarefulRun(c: Config, s: State, ts: seq<TStep>)
    decreases |ts|
  {
    ts != [] && Sized(c, s) && TGuard(c, s, ts[0]) ==>
      Careful(c, s, ts[0]) && CarefulRun(c, TApply(c, s, ts[0]), ts[1..])
  }

  // ------------------------------------------------------------ the repaired state

  function InUse(slotUse: seq<Use>): (bits: seq<bool>)
    ensures |bits| == |slotUse| && forall b | 0 <= b < |bits| :: bits[b] <==> slotUse[b] != Free
  {
    if slotUse == [] then [] else [slotUse[0] != Free] + InUse(slotUse[1..])
  }

  /** The state with the bitmap recomputed from who uses each slot. */
  function Repaired(s: State): State {
    s.(bitmap := InUse(s.g.slotUse))
  }

  /** Good but for cleared bits. */
  predicate Repairable(c: Config, s: State) {
    Sized(c, s) && Inv(c, Repaired(s)) && BitsInUse(s.bitmap, s.g.slotUse)
  }

  lemma InUseUpdate(slotUse: seq<Use>, b: nat, use: Use)
    requires b < |slotUse|
    ensures InUse(slotUse[b := use]) == InUse(slotUse)[b := use != Free]
  {
    var x, y := InUse(slotUse[b := use]), InUse(slotUse)[b := use != Free];
    assert forall i | 0 <= i < |x| :: x[i] == y[i];
    assert x == y;
  }

  lemma SubmitterCommutes(c: Config, s: State, step: Step)
    requires Sized(c, s) && Guard(c, s, step) && IsSubmitterStep(step) && !step.KAlloc?
    requires step.KPublish? ==> s.k.slot < c.cap && InUse(s.g.slotUse)[s.k.slot := true] == InUse(s.g.slotUse)
    ensures Sized(c, Repaired(s)) && Guard(c, Repaired(s), step)
    ensures Repaired(ApplySubmitter(c, s, step)) == ApplySubmitter(c, Repaired(s), step)
  {
    hide InUse, FirstZero, Advance;
    match step
    case KPublish => InUseUpdate(s.g.slotUse, s.k.slot, Logged(|s.g.log|));
    case KBackOut => InUseUpdate(s.g.slotUse, s.k.slot, Free);
    case _ =>
  }

  lemma DaemonCommutes(c: Config, s: State, step: Step)
    requires Sized(c, s) && Guard(c, s, step) && !IsSubmitterStep(step) && !IsHarvesterStep(step)
    ensures Sized(c, Repaired(s)) && Guard(c, Repaired(s), step)
    ensures Repaired(ApplyDaemon(c, s, step)) == ApplyDaemon(c, Repaired(s), step)
  {
    hide InUse, FirstZero, Advance, LossyStore;
  }

  lemma HarvesterCommutes(c: Config, s: State, step: Step)
    requires Sized(c, s) && Guard(c, s, step) && IsHarvesterStep(step)
    ensures Sized(c, Repaired(s)) && Guard(c, Repaired(s), step)
    ensures Repaired(ApplyHarvester(c, s, step)) == ApplyHarvester(c, Repaired(s), step)
  {
    hide InUse, FirstZero, Advance;
    if step.HFree? {
      InUseUpdate(s.g.slotUse, s.cmds[s.h.tag].slot, Free);
    }
  }

  /** Every step but a submission does to the repaired state what it does to the state. */
  lemma RepairCommutes(c: Config, s: State, step: Step)
    requires Repairable(c, s) && Guard(c, s, step) && !step.KAlloc?
    ensures Sized(c, Repaired(s)) && Guard(c, Repaired(s), step)
    ensures Repaired(Apply(c, s, step)) == Apply(c, Repaired(s), step)
  {
    hide Inv, InUse, Guard, ApplySubmitter, ApplyDaemon, ApplyHarvester, Repaired;
    if IsSubmitterStep(step) {
      if step.KPublish? { PublishHolds(c, s); HandInUse(c, s); }
      SubmitterCommutes(c, s, step);
    } else if IsHarvesterStep(step) {
      HarvesterCommutes(c, s, step);
    } else {
      DaemonCommutes(c, s, step);
    }
  }

  lemma PublishHolds(c: Config, s: State)
    requires Sized(c, s) && Guard(c, s, KPublish)
    ensures !s.k.KIdle?
  {
  }

  lemma HandInUse(c: Config, s: State)
    requires Repairable(c, s) && !s.k.KIdle?
    ensures s.k.slot < c.cap && InUse(s.g.slotUse)[s.k.slot := true] == InUse(s.g.slotUse)
  {
    hide RequestsHold, CompletionsHold, TagsOwned, HandFilled, HandWritten, DaemonAt, HarvesterAt, SlotsOwned;
    hide StoresStaged, LoadsStaged, StoreSound, LoadsSound, EndingsSound;
  }

  predicate BitsInUse(bitmap: seq<bool>, slotUse: seq<Use>)
    requires |bitmap| == |slotUse|
  {
    forall b | 0 <= b < |bitmap| && bitmap[b] :: slotUse[b] != Free
  }

  /** No step but a submission sets a bit, and none frees a slot without clearing its bit. */
  lemma BitsStay(c: Config, s: State, step: Step)
    requires Sized(c, s) && Guard(c, s, step) && !step.KAlloc? && BitsInUse(s.bitmap, s.g.slotUse)
    ensures var s' := Apply(c, s, step);
      |s'.bitmap| == |s'.g.slotUse| && BitsInUse(s'.bitmap, s'.g.slotUse)
  {
    hide FirstZero, Advance, LossyStore;
  }

  // ------------------------------------------------------------ careful steps

  lemma StepRepairs(c: Config, s: State, step: Step)
    requires ValidConfig(c) && Repairable(c, s) && Guard(c, s, step) && !step.KAlloc?
    ensures Repairable(c, Apply(c, s, step))
  {
    hide Inv, Guard, Apply, Repaired, BitsInUse;
    RepairCommutes(c, s, step);
    BitsStay(c, s, step);
    StepKeeps(c, Repaired(s), step);
    RepairedSized(c, Apply(c, s, step));
  }

  lemma RepairedSized(c: Config, s: State)
    requires Inv(c, Repaired(s)) && |s.bitmap| == |s.g.slotUse|
    ensures Sized(c, s)
  {
  }

  lemma ExpireRepairs(c: Config, s: State, tag: nat)
    requires Repairable(c, s) && TGuard(c, s, Expire(tag))
    ensures Repairable(c, Timeout(s, tag))
  {
    hide Inv, InUse;
  }

  /** A slot clear in the bitmap and not in use is the first of both. */
  lemma SameFirst(c: Config, s: State)
    requires Repairable(c, s) && FirstZero(s.bitmap) < c.cap && s.g.slotUse[FirstZero(s.bitmap)] == Free
    ensures FirstZero(InUse(s.g.slotUse)) == FirstZero(s.bitmap)
  {
    hide Inv;
    FirstZeroIs(InUse(s.g.slotUse), FirstZero(s.bitmap));
  }

  lemma AllocRepairs(c: Config, s: State, tag: nat, bio: Bio)
    requires ValidConfig(c) && Repairable(c, s) && Guard(c, s, KAlloc(tag, bio))
    requires s.g.slotUse[FirstZero(s.bitmap)] == Free
    ensures Repairable(c, Apply(c, s, KAlloc(tag, bio)))
  {
    SameFirst(c, s);
    AllocSets(c, s, tag, bio);
    hide Inv, InUse, FirstZero, BitsInUse;
    var b := FirstZero(s.bitmap);
    InUseUpdate(s.g.slotUse, b, InHand);
    assert Repaired(Apply(c, s, KAlloc(tag, bio))) == Apply(c, Repaired(s), KAlloc(tag, bio));
    StepKeeps(c, Repaired(s), KAlloc(tag, bio));
  }

  lemma AllocSets(c: Config, s: State, tag: nat, bio: Bio)
    requires Sized(c, s) && Guard(c, s, KAlloc(tag, bio)) && BitsInUse(s.bitmap, s.g.slotUse)
    ensures var s' := Apply(c, s, KAlloc(tag, bio)); Sized(c, s') && BitsInUse(s'.bitmap, s'.g.slotUse)
  {
    hide FirstZero;
  }

  /** A submission after timeouts leaves a good state, bitmap aside, if and only if the slot it takes is not in use. */
  lemma AllocRepairsIff(c: Config, s: State, tag: nat, bio: Bio)
    requires ValidConfig(c) && Repairable(c, s) && Guard(c, s, KAlloc(tag, bio))
    ensures Repairable(c, Apply(c, s, KAlloc(tag, bio))) <==> Careful(c, s, Take(KAlloc(tag, bio)))
  {
    if s.g.slotUse[FirstZero(s.bitmap)] == Free {
      AllocRepairs(c, s, tag, bio);
    } else {
      StolenSlot(c, s, tag, bio);
    }
  }

  lemma StolenSlot(c: Config, s: State, tag: nat, bio: Bio)
    requires Repairable(c, s) && Guard(c, s, KAlloc(tag, bio)) && s.g.slotUse[FirstZero(s.bitmap)] != Free
    ensures !Inv(c, Repaired(Apply(c, s, KAlloc(tag, bio))))
  {
    hide RequestsHold, CompletionsHold, TagsOwned, HandFilled, HandWritten, DaemonAt, HarvesterAt;
    hide StoresStaged, LoadsStaged, StoreSound, LoadsSound, EndingsSound, FirstZero, InUse;
    var b := FirstZero(s.bitmap);
    assert s.g.slotUse[b].Logged?;
    var i := s.g.slotUse[b].at;
    assert s.g.log[i].slot == b && Owning(s) <= i;
    assert Apply(c, s, KAlloc(tag, bio)).g.slotUse[b] == InHand;
  }

  // ------------------------------------------------------------ whole runs

  lemma {:induction false} CarefulKeeps(c: Config, s: State, ts: seq<TStep>, s': State)
    requires ValidConfig(c) && Repairable(c, s) && TRuns(c, s, ts, s') && CarefulRun(c, s, ts)
    ensures Repairable(c, s')
    decreases |ts|
  {
    hide Repairable, Guard, Apply, Timeout;
    if ts != [] {
      CarefulStep(c, s, ts[0]);
      CarefulKeeps(c, TApply(c, s, ts[0]), ts[1..], s');
    }
  }

  lemma CarefulStep(c: Config, s: State, t: TStep)
    requires ValidConfig(c) && Repairable(c, s) && TGuard(c, s, t) && Careful(c, s, t)
    ensures Repairable(c, TApply(c, s, t))
  {
    hide Inv, Guard, Apply, Repaired, BitsInUse, FirstZero;
    match t
    case Expire(tag) => ExpireRepairs(c, s, tag);
    case Take(step) =>
      if step.KAlloc? {
        AllocRepairs(c, s, step.tag, step.bio);
      } else {
        StepRepairs(c, s, step);
      }
  }

  lemma InitRepairable(c: Config)
    requires ValidConfig(c)
    ensures Repairable(c, Init(c))
  {
    InitInv(c);
    hide Inv;
    assert InUse(Init(c).g.slotUse) == Init(c).bitmap;
    assert Repaired(Init(c)) == Init(c);
  }

  lemma RepairableReads(c: Config, s: State, i: nat)
    requires Repairable(c, s) && i < |s.g.endings|
    ensures |s.g.endings| <= |s.g.log| && EndedRight(s, i)
  {
    EndedPublished(c, Repaired(s));
    EndedFromInv(c, Repaired(s), i);
    hide Inv;
  }

  /**
   The end-to-end guarantee under timeouts: with any number of them anywhere in a run, as
   long as no submission takes a slot still in use, every read that ended OK delivered the
   last page written.
   */
  lemma CarefulReads(c: Config, ts: seq<TStep>, s: State, i: nat)
    requires ValidConfig(c) && TRuns(c, Init(c), ts, s) && CarefulRun(c, Init(c), ts) && i < |s.g.endings|
    ensures |s.g.endings| <= |s.g.log| && EndedRight(s, i)
  {
    hide TRuns, CarefulRun, Repairable;
    InitRepairable(c);
    CarefulKeeps(c, Init(c), ts, s);
    RepairableReads(c, s, i);
  }

  // ------------------------------------------------------------ configurations that are safe

  /** With a single tag a submission finds nothing in flight. */
  lemma OneTagFree(c: Config, s: State, tag: nat, bio: Bio)
    requires c.depth <= 1 && Repairable(c, s) && Guard(c, s, KAlloc(tag, bio))
    ensures Careful(c, s, Take(KAlloc(tag, bio)))
  {
    hide RequestsHold, CompletionsHold, HandFilled, HandWritten, DaemonAt, HarvesterAt, TagsOwned;
    hide StoresStaged, LoadsStaged, StoreSound, LoadsSound, EndingsSound, FirstZero, InUse;
    if |s.g.endings| < |s.g.log| {
      TagInFlight(c, Repaired(s), |s.g.endings|);
    }
    var b := FirstZero(s.bitmap);
    assert s.g.slotUse[b].InHand? ==> b == -1;
  }

  lemma {:induction false} OneTagCareful(c: Config, s: State, ts: seq<TStep>, s': State)
    requires ValidConfig(c) && c.depth <= 1 && Repairable(c, s) && TRuns(c, s, ts, s')
    ensures CarefulRun(c, s, ts)
    decreases |ts|
  {
    hide Repairable, Guard, Apply, Timeout, FirstZero;
    if ts != [] {
      if ts[0].Take? && ts[0].step.KAlloc? {
        OneTagFree(c, s, ts[0].step.tag, ts[0].step.bio);
      }
      CarefulStep(c, s, ts[0]);
      OneTagCareful(c, TApply(c, s, ts[0]), ts[1..], s');
    }
  }

  /** A ring of one entry accepts nothing, timeouts or not. */
  predicate NothingAccepted(s: State) {
    s.h.HIdle? && s.g.endings == [] && !s.k.KWriting? && !s.k.KPublishing?
  }

  lemma {:induction false} OneEntryRuns(c: Config, s: State, ts: seq<TStep>, s': State)
    requires c.cap == 1 && NothingAccepted(s) && TRuns(c, s, ts, s')
    ensures NothingAccepted(s')
    decreases |ts|
  {
    hide TApply;
    if ts != [] {
      OneEntryStep(c, s, ts[0]);
      OneEntryRuns(c, TApply(c, s, ts[0]), ts[1..], s');
    }
  }

  lemma OneEntryStep(c: Config, s: State, t: TStep)
    requires c.cap == 1 && NothingAccepted(s) && Sized(c, s) && TGuard(c, s, t)
    ensures NothingAccepted(TApply(c, s, t))
  {
    hide FirstZero, LossyStore;
    assert Advance(0, 1) == 0;
  }

  // ------------------------------------------------------------ and those that are not

  function Takes(steps: seq<Step>): (ts: seq<TStep>)
    ensures |ts| == |steps|
  {
    if steps == [] then [] else [Take(steps[0])] + Takes(steps[1..])
  }

  lemma {:induction false} TakesRun(c: Config, s: State, steps: seq<Step>, s': State)
    requires Runs(c, s, steps, s')
    ensures TRuns(c, s, Takes(steps), s')
    decreases |steps|
  {
    hide Guard, Apply;
    if steps != [] {
      TakesRun(c, Apply(c, s, steps[0]), steps[1..], s');
      assert Takes(steps)[1..] == Takes(steps[1..]);
    }
  }

  lemma {:induction false} TRunsConcat(c: Config, s: State, a: seq<TStep>, m: State, b: seq<TStep>, s': State)
    requires TRuns(c, s, a, m) && TRuns(c, m, b, s')
    ensures TRuns(c, s, a + b, s')
    decreases |a|
  {
    hide TGuard, TApply;
    if a == [] {
      assert a + b == b;
    } else {
      TRunsConcat(c, TApply(c, s, a[0]), a[1..], m, b, s');
      assert (a + b)[1..] == a[1..] + b;
    }
  }

  /** Request `i` ended, and wrongly. */
  predicate EndedWrong(s: State, i: nat) {
    i < |s.g.endings| <= |s.g.log| && !EndedRight(s, i)
  }

  lemma WrongRun(c: Config) returns (ts: seq<TStep>, s: State)
    requires ValidConfig(c) && c.cap >= 2 && c.depth >= 2
    ensures TRuns(c, Init(c), ts, s) && EndedWrong(s, 2)
  {
    hide TRuns, Runs;
    var before, m, after, s' := TimeoutLosesPage(c, [0], [1]);
    TakesRun(c, Init(c), before, m);
    TakesRun(c, Timeout(m, 0), after, s');
    ExpireRun(c, m);
    TRunsConcat(c, Init(c), Takes(before), m, [Expire(0)], Timeout(m, 0));
    TRunsConcat(c, Init(c), Takes(before) + [Expire(0)], Timeout(m, 0), Takes(after), s');
    ts, s := Takes(before) + [Expire(0)] + Takes(after), s';
  }

  lemma ExpireRun(c: Config, s: State)
    requires Sized(c, s) && TGuard(c, s, Expire(0))
    ensures TRuns(c, s, [Expire(0)], Timeout(s, 0))
  {
    assert [Expire(0)][1..] == [];
  }

  /**
   Exactly which configurations timeouts can harm: some run with timeouts ends a read
   wrongly if and only if the ring has at least two entries and the queue at least two tags.
   */
  lemma HarmedIff(c: Config)
    requires ValidConfig(c)
    ensures (exists ts, s, i: nat :: TRuns(c, Init(c), ts, s) && EndedWrong(s, i)) <==> c.cap >= 2 && c.depth >= 2
  {
    if c.cap >= 2 && c.depth >= 2 {
      var ts, s := WrongRun(c);
    } else {
      hide TRuns, CarefulRun, Repairable, EndedRight;
      assert c.cap > 0;
      forall ts, s, i: nat | TRuns(c, Init(c), ts, s) ensures !EndedWrong(s, i) {
        if i < |s.g.endings| {
          SafeConfig(c, ts, s, i);
        }
      }
    }
  }

  lemma SafeConfig(c: Config, ts: seq<TStep>, s: State, i: nat)
    requires ValidConfig(c) && (c.cap == 1 || c.depth <= 1) && TRuns(c, Init(c), ts, s) && i < |s.g.endings|
    ensures |s.g.endings| <= |s.g.log| && EndedRight(s, i)
  {
    hide TRuns, CarefulRun, Repairable, EndedRight;
    if c.depth <= 1 {
      InitRepairable(c);
      OneTagCareful(c, Init(c), ts, s);
      CarefulReads(c, ts, s, i);
    } else {
      OneEntryRuns(c, Init(c), ts, s);
    }
  }
}
