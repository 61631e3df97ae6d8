/**
 Progress of the swap protocol: every step that is not a new submission shrinks a
 measure. Where none of them is enabled, either all is quiet, with every request
 ended and every slot free, or the completion ring is full and looks empty.
 */
module SwapDrain {
  import opened SwapProtocol
  import opened SwapInvariant
  import opened SwapSafety

  // ------------------------------------------------------------ draining

  function SubmitterWork(k: Submitter): nat {
    match k
    case KIdle => 0
    case KHolds(_, _) => 19
    case KReady(_, _) => 18
    case KWriting(_, _) => 17
    case KPublishing(_, _) => 16
    case KFull(_, _) => 1
  }

  function DaemonDone(d: Daemon): nat {
    match d
    case DIdle => 0
    case DSeen => 1
    case DGot(_) => 2
    case DStoring(_, _) => 3
    case DLoaded(_, _) => 3
    case DDone(_, _) => 4
    case DAdvanced(_, _) => 5
    case DWritten(_, _) => 6
  }

  function HarvesterDone(h: Harvester): nat {
    match h
    case HIdle => 0
    case HSeen => 1
    case HGot(_) => 2
    case HPopped(_) => 3
    case HDelivered(_, _) => 4
    case HFreed(_, _) => 5
  }

  /** Steps left, at most, before everything published is ended. */
  function Work(s: State): int {
    SubmitterWork(s.k)
    + 8 * (|s.g.log| - s.g.completed) - DaemonDone(s.d)
    + 7 * (|s.g.log| - |s.g.endings|) - HarvesterDone(s.h)
  }

  /** Nothing in flight, nobody busy, every slot free. */
  predicate Quiet(s: State) {
    && s.k.KIdle? && s.d.DIdle? && s.h.HIdle?
    && |s.g.endings| == |s.g.log|
    && forall b | 0 <= b < |s.bitmap| :: !s.bitmap[b]
  }

  lemma WorkIsNatural(c: Config, s: State)
    requires Inv(c, s)
    ensures 0 <= Work(s)
  {
    hide RequestsHold, CompletionsHold, SlotsOwned, TagsOwned, HandHeld, HandFilled, HandWritten;
    hide StoresStaged, LoadsStaged, StoreSound, LoadsSound, EndingsSound;
  }

  lemma SubmitterWorks(c: Config, s: State, step: Step)
    requires Inv(c, s) && Guard(c, s, step) && IsSubmitterStep(step) && !step.KAlloc?
    ensures Work(ApplySubmitter(c, s, step)) < Work(s)
  {
    hide RequestsHold, CompletionsHold, SlotsOwned, TagsOwned, HandHeld, HandFilled, HandWritten;
    hide StoresStaged, LoadsStaged, StoreSound, LoadsSound, EndingsSound;
    hide DaemonAt, HarvesterAt;
  }

  lemma DaemonWorks(c: Config, s: State, step: Step)
    requires Inv(c, s) && Guard(c, s, step) && !IsSubmitterStep(step) && !IsHarvesterStep(step)
    ensures Work(ApplyDaemon(c, s, step)) < Work(s)
  {
    hide RequestsHold, CompletionsHold, SlotsOwned, TagsOwned, HandHeld, HandFilled, HandWritten;
    hide StoresStaged, LoadsStaged, StoreSound, LoadsSound, EndingsSound;
    hide HarvesterAt;
  }

  lemma HarvesterWorks(c: Config, s: State, step: Step)
    requires Inv(c, s) && Guard(c, s, step) && IsHarvesterStep(step)
    ensures Work(ApplyHarvester(c, s, step)) < Work(s)
  {
    hide RequestsHold, CompletionsHold, SlotsOwned, TagsOwned, HandHeld, HandFilled, HandWritten;
    hide StoresStaged, LoadsStaged, StoreSound, LoadsSound, EndingsSound;
    hide DaemonAt;
    if step.HDeliver? { TagInFlight(c, s, |s.g.endings|); }
  }

  /** Every step but a new submission does some of the work. */
  lemma StepWorks(c: Config, s: State, step: Step)
    requires Inv(c, s) && Guard(c, s, step) && !step.KAlloc?
    ensures Work(Apply(c, s, step)) < Work(s)
  {
    hide Inv, Guard, Work, ApplySubmitter, ApplyDaemon, ApplyHarvester;
    if IsSubmitterStep(step) {
      SubmitterWorks(c, s, step);
    } else if IsHarvesterStep(step) {
      HarvesterWorks(c, s, step);
    } else {
      DaemonWorks(c, s, step);
    }
  }

  /** A step, other than a new submission, for every state that is not quiet. */
  function NextStep(s: State): Step {
    if s.k.KHolds? then KFill
    else if s.k.KReady? then KCheck
    else if s.k.KWriting? then KWrite
    else if s.k.KPublishing? then KPublish
    else if s.k.KFull? then KBackOut
    else match s.d
      case DSeen => DFetch
      case DGot(req) => if req.op == OP_STORE then DCopyIn else DLoad(false)
      case DStoring(req, _) => DStore(false, s.store - {req.offset})
      case DLoaded(_, _) => DCopyOut
      case DDone(_, _) => DAdvance
      case DAdvanced(_, _) => DWrite
      case DWritten(_, _) => DPublish
      case DIdle =>
        if s.reqRead != s.reqWrite then DPoll
        else match s.h
          case HIdle => HPoll
          case HSeen => HFetch
          case HGot(_) => HAdvance
          case HPopped(_) => HDeliver
          case HDelivered(_, _) => HFree
          case HFreed(_, _) => HEnd
  }

  lemma DaemonCanStep(c: Config, s: State)
    requires Inv(c, s) && s.k.KIdle? && !s.d.DIdle?
    ensures Guard(c, s, NextStep(s)) && !NextStep(s).KAlloc?
  {
    hide RequestsHold, CompletionsHold, HandHeld, HandFilled, HandWritten, TagsOwned;
    hide StoresStaged, LoadsStaged, StoreSound, LoadsSound, EndingsSound;
    if s.g.polled < |s.g.log| { TagInFlight(c, s, s.g.polled); }
  }

  lemma HarvesterCanStep(c: Config, s: State)
    requires Inv(c, s) && !s.h.HIdle? && s.k.KIdle? && s.d.DIdle? && s.reqRead == s.reqWrite
    ensures Guard(c, s, NextStep(s)) && !NextStep(s).KAlloc?
  {
    hide RequestsHold, CompletionsHold, HandHeld, HandFilled, HandWritten, TagsOwned, SlotsOwned;
    hide StoresStaged, LoadsStaged, StoreSound, LoadsSound, EndingsSound;
    TagInFlight(c, s, |s.g.endings|);
  }

  /** Everybody waits, and the completion ring holds a whole lap, which looks like nothing. */
  predicate Stuck(c: Config, s: State) {
    && s.k.KIdle? && s.d.DIdle? && s.h.HIdle? && s.reqRead == s.reqWrite
    && s.g.completed - s.g.popped == c.cap
  }

  /** A state in which only new submissions are possible is quiet or stuck. */
  lemma QuietOrBusy(c: Config, s: State)
    requires Inv(c, s)
    ensures Quiet(s) || Stuck(c, s) || (Guard(c, s, NextStep(s)) && !NextStep(s).KAlloc?)
  {
    hide RequestsHold, CompletionsHold, HandFilled, HandWritten, TagsOwned;
    hide StoresStaged, LoadsStaged, StoreSound, LoadsSound, EndingsSound;
    if s.k.KIdle? {
      if !s.d.DIdle? {
        DaemonCanStep(c, s);
      } else if s.reqRead == s.reqWrite && !s.h.HIdle? {
        HarvesterCanStep(c, s);
      }
    }
  }

  /** When stuck, every slot is taken: not even a new submission is possible. */
  lemma StuckIsFinal(c: Config, s: State)
    requires Inv(c, s) && Stuck(c, s)
    ensures Outstanding(s) == c.cap && FirstZero(s.bitmap) == c.cap
    ensures forall step :: !Guard(c, s, step)
  {
    hide RequestsHold, CompletionsHold, HandHeld, HandFilled, HandWritten, TagsOwned, SlotsOwned, DaemonAt;
    hide StoresStaged, LoadsStaged, StoreSound, LoadsSound, EndingsSound;
    SlotsBound(c, s);
  }

  /**
   Draining: with no new submission a run is at most `Work(s)` steps long, and where
   it can go no further everything is ended and freed, or the run is stuck.
   */
  lemma {:induction false} Drains(c: Config, s: State, steps: seq<Step>, s': State)
    requires ValidConfig(c) && Inv(c, s) && Runs(c, s, steps, s')
    requires forall step | step in steps :: !step.KAlloc?
    ensures |steps| <= Work(s) - Work(s') && 0 <= Work(s')
    ensures (forall step :: Sized(c, s') && Guard(c, s', step) ==> step.KAlloc?) ==> Quiet(s') || Stuck(c, s')
    decreases |steps|
  {
    hide Inv, Guard, Apply, Quiet, Stuck, Work, NextStep;
    if steps == [] {
      WorkIsNatural(c, s);
      QuietOrBusy(c, s);
      InvSized(c, s);
    } else {
      StepKeeps(c, s, steps[0]);
      StepWorks(c, s, steps[0]);
      assert forall step | step in steps[1..] :: step in steps;
      Drains(c, Apply(c, s, steps[0]), steps[1..], s');
    }
  }

  /** Requests published and not ended, and the one in the submitter's hand. */
  function Pending(s: State): int {
    Outstanding(s) + if s.k.KIdle? then 0 else 1
  }

  lemma {:induction false} PendingShrinks(c: Config, s: State, steps: seq<Step>, s': State)
    requires ValidConfig(c) && Inv(c, s) && Runs(c, s, steps, s')
    requires forall step | step in steps :: !step.KAlloc?
    ensures Inv(c, s') && Pending(s') <= Pending(s)
    decreases |steps|
  {
    hide Inv, Guard, Apply;
    if steps != [] {
      StepKeeps(c, s, steps[0]);
      PendingStep(c, s, steps[0]);
      assert forall step | step in steps[1..] :: step in steps;
      PendingShrinks(c, Apply(c, s, steps[0]), steps[1..], s');
    }
  }

  lemma PendingStep(c: Config, s: State, step: Step)
    requires Inv(c, s) && Guard(c, s, step) && !step.KAlloc?
    ensures Pending(Apply(c, s, step)) <= Pending(s)
  {
    hide Inv;
    InvSized(c, s);
  }

  /**
   Within the bound everything drains, in any configuration, the driver's own included:
   from a state with fewer requests pending than ring entries, a run that takes no new
   ones and can go no further has ended every request and freed every slot.
   */
  lemma DrainsQuiet(c: Config, s: State, steps: seq<Step>, s': State)
    requires ValidConfig(c) && Inv(c, s) && Runs(c, s, steps, s') && Pending(s) < c.cap
    requires forall step | step in steps :: !step.KAlloc?
    requires forall step :: Sized(c, s') && Guard(c, s', step) ==> step.KAlloc?
    ensures Quiet(s')
  {
    hide Inv, Guard, Apply, Quiet, Work, Stuck, Runs;
    Drains(c, s, steps, s');
    PendingShrinks(c, s, steps, s');
    if Stuck(c, s') {
      StuckIsFinal(c, s');
    }
  }

  lemma InvSized(c: Config, s: State)
    requires Inv(c, s)
    ensures Sized(c, s)
  {
  }
}
