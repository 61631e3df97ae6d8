/**
 Building runs of the swap protocol: what one thread does when the others stand still,
 as one change of state.
 */
module SwapRuns {
  import opened Bits
  import opened Pages
  import opened SwapProtocol

  lemma {:induction false} RunsConcat(c: Config, s: State, a: seq<Step>, m: State, b: seq<Step>, s': State)
    requires Runs(c, s, a, m) && Runs(c, m, b, s')
    ensures Runs(c, s, a + b, s')
    decreases |a|
  {
    hide Guard, Apply;
    if a == [] {
      assert a + b == b;
    } else {
      RunsConcat(c, Apply(c, s, a[0]), a[1..], m, b, s');
      assert (a + b)[1..] == a[1..] + b;
    }
  }

  lemma RunsOne(c: Config, s: State, step: Step)
    requires Sized(c, s) && Guard(c, s, step)
    ensures Runs(c, s, [step], Apply(c, s, step))
  {
    hide Guard, Apply;
    assert [step][1..] == [];
  }

  lemma RunsFive(c: Config, s: State, steps: seq<Step>, s1: State, s2: State, s3: State, s4: State, m: State)
    requires |steps| == 5
    requires Sized(c, s) && Guard(c, s, steps[0]) && s1 == Apply(c, s, steps[0])
    requires Sized(c, s1) && Guard(c, s1, steps[1]) && s2 == Apply(c, s1, steps[1])
    requires Sized(c, s2) && Guard(c, s2, steps[2]) && s3 == Apply(c, s2, steps[2])
    requires Sized(c, s3) && Guard(c, s3, steps[3]) && s4 == Apply(c, s3, steps[3])
    requires Sized(c, s4) && Guard(c, s4, steps[4]) && m == Apply(c, s4, steps[4])
    ensures Runs(c, s, steps, m)
  {
    hide Guard, Apply;
    assert Runs(c, m, steps[1..][1..][1..][1..][1..], m);
    assert Runs(c, s4, steps[1..][1..][1..][1..], m);
    assert Runs(c, s3, steps[1..][1..][1..], m);
    assert Runs(c, s2, steps[1..][1..], m);
    assert Runs(c, s1, steps[1..], m);
  }

  lemma FirstZeroIs(bits: seq<bool>, b: nat)
    requires b <= |bits| && (b < |bits| ==> !bits[b]) && forall i | 0 <= i < b :: bits[i]
    ensures FirstZero(bits) == b
  {
    var z := FirstZero(bits);
    assert z < |bits| ==> !bits[z];
    assert b < |bits| ==> !bits[b];
  }

  lemma RunsCons(c: Config, s: State, step: Step, rest: seq<Step>, s': State)
    requires Sized(c, s) && Guard(c, s, step) && Runs(c, Apply(c, s, step), rest, s')
    ensures Runs(c, s, [step] + rest, s')
  {
    hide Guard, Apply;
    assert ([step] + rest)[1..] == rest;
  }

  // ------------------------------------------------------------ the submitter

  predicate CanStage(c: Config, s: State, tag: nat) {
    Sized(c, s) && s.k.KIdle? && tag < c.depth && s.rqs[tag].None? && FirstZero(s.bitmap) < c.cap
  }

  /** A slot taken and filled. */
  function StageTo(c: Config, s: State, tag: nat, bio: Bio): State
    requires CanStage(c, s, tag)
  {
    var slot := FirstZero(s.bitmap);
    s.(bitmap := s.bitmap[slot := true], rqs := s.rqs[tag := Some(bio)],
       staging := if bio.isWrite then s.staging[slot := bio.data] else s.staging,
       cmds := s.cmds[tag := Cmd(slot, !bio.isWrite)], k := KReady(tag, slot),
       g := s.g.(slotUse := s.g.slotUse[slot := InHand], tagUse := s.g.tagUse[tag := InHand]))
  }

  lemma StageRun(c: Config, s: State, tag: nat, bio: Bio)
    requires CanStage(c, s, tag)
    ensures Runs(c, s, [KAlloc(tag, bio), KFill], StageTo(c, s, tag, bio)) && Sized(c, StageTo(c, s, tag, bio))
  {
    hide FirstZero, Runs;
    var s1 := Apply(c, s, KAlloc(tag, bio));
    assert Apply(c, s1, KFill) == StageTo(c, s, tag, bio);
    RunsOne(c, s1, KFill);
    RunsCons(c, s, KAlloc(tag, bio), [KFill], StageTo(c, s, tag, bio));
    assert [KAlloc(tag, bio)] + [KFill] == [KAlloc(tag, bio), KFill];
  }

  predicate CanPublish(c: Config, s: State) {
    && Sized(c, s) && s.k.KReady? && s.k.tag < c.depth && s.k.slot < c.cap && s.rqs[s.k.tag].Some?
    && Advance(s.reqWrite, c.cap) != s.reqRead && Advance(s.reqWrite, c.cap) < c.cap
  }

  /** The staged request published. */
  function PublishTo(c: Config, s: State): State
    requires CanPublish(c, s)
  {
    var tag, slot, bio := s.k.tag, s.k.slot, s.rqs[s.k.tag].value;
    s.(requests := s.requests[s.reqWrite := RequestFor(tag, slot, bio)], reqWrite := Advance(s.reqWrite, c.cap),
       k := KIdle,
       g := s.g.(log := s.g.log + [Entry(tag, slot, bio.isWrite, bio.sector, PageIndex(bio.sector), bio.data)],
                 slotUse := s.g.slotUse[slot := Logged(|s.g.log|)], tagUse := s.g.tagUse[tag := Logged(|s.g.log|)]))
  }

  lemma PublishRun(c: Config, s: State)
    requires CanPublish(c, s)
    ensures Runs(c, s, [KCheck, KWrite, KPublish], PublishTo(c, s)) && Sized(c, PublishTo(c, s))
  {
    hide Advance, Runs;
    var s1 := Apply(c, s, KCheck);
    var s2 := Apply(c, s1, KWrite);
    var s' := Apply(c, s2, KPublish);
    assert s' == PublishTo(c, s);
    RunsOne(c, s2, KPublish);
    RunsCons(c, s1, KWrite, [KPublish], s');
    RunsCons(c, s, KCheck, [KWrite] + [KPublish], s');
    assert [KCheck] + ([KWrite] + [KPublish]) == [KCheck, KWrite, KPublish];
  }

  // ------------------------------------------------------------ the daemon

  predicate CanServe(c: Config, s: State) {
    && Sized(c, s) && s.d.DIdle? && s.reqRead != s.reqWrite && s.requests[s.reqRead].slot < c.cap
    && Advance(s.reqRead, c.cap) < c.cap && Advance(s.compWrite, c.cap) < c.cap
  }

  /** The oldest request consumed and answered. */
  function Answered(c: Config, s: State, result: int, o: Outcome): State
    requires CanServe(c, s)
  {
    var req := s.requests[s.reqRead];
    s.(reqRead := Advance(s.reqRead, c.cap),
       completions := s.completions[s.compWrite := Completion(req.seqNo, result, req.slot)],
       compWrite := Advance(s.compWrite, c.cap),
       g := s.g.(outcomes := s.g.outcomes + [o], polled := s.g.polled + 1, completed := s.g.completed + 1))
  }

  lemma CompleteRun(c: Config, s: State, s1: State, result: int, o: Outcome)
    requires CanServe(c, s) && Sized(c, s1)
    requires s1 == s.(d := DDone(s.requests[s.reqRead], result), store := s1.store, staging := s1.staging,
                      g := s.g.(outcomes := s.g.outcomes + [o]))
    ensures Runs(c, s1, [DAdvance, DWrite, DPublish],
                 Answered(c, s, result, o).(store := s1.store, staging := s1.staging))
  {
    hide Advance, Runs;
    var s2 := Apply(c, s1, DAdvance);
    var s3 := Apply(c, s2, DWrite);
    var s' := Apply(c, s3, DPublish);
    assert s' == Answered(c, s, result, o).(store := s1.store, staging := s1.staging);
    RunsOne(c, s3, DPublish);
    RunsCons(c, s2, DWrite, [DPublish], s');
    RunsCons(c, s1, DAdvance, [DWrite] + [DPublish], s');
    assert [DAdvance] + ([DWrite] + [DPublish]) == [DAdvance, DWrite, DPublish];
  }

  /** A store served with success: what is in the request's staging slot now is what the engine gets. */
  lemma StoreRun(c: Config, s: State) returns (steps: seq<Step>, s': State)
    requires CanServe(c, s) && s.requests[s.reqRead].op == OP_STORE
    ensures Runs(c, s, steps, s') && Sized(c, s')
    ensures var req := s.requests[s.reqRead];
      s' == Answered(c, s, 0, Outcome(true, [])).(store := s.store[req.offset := s.staging[req.slot]])
  {
    hide Advance, Runs;
    var req := s.requests[s.reqRead];
    var page := s.staging[req.slot];
    var next := s.store[req.offset := page];
    var s1 := Apply(c, s, DPoll);
    var s2 := Apply(c, s1, DFetch);
    var s3 := Apply(c, s2, DCopyIn);
    assert LossyStore(s.store, req.offset, page, true, next);
    var s4 := Apply(c, s3, DStore(true, next));
    s' := Answered(c, s, 0, Outcome(true, [])).(store := next);
    CompleteRun(c, s, s4, 0, Outcome(true, []));
    var tail := [DAdvance, DWrite, DPublish];
    RunsCons(c, s3, DStore(true, next), tail, s');
    RunsCons(c, s2, DCopyIn, [DStore(true, next)] + tail, s');
    RunsCons(c, s1, DFetch, [DCopyIn] + ([DStore(true, next)] + tail), s');
    steps := [DPoll] + ([DFetch] + ([DCopyIn] + ([DStore(true, next)] + tail)));
    RunsCons(c, s, DPoll, [DFetch] + ([DCopyIn] + ([DStore(true, next)] + tail)), s');
  }

  /** A load served with success. */
  lemma LoadRun(c: Config, s: State) returns (steps: seq<Step>, s': State)
    requires CanServe(c, s) && s.requests[s.reqRead].op == OP_LOAD && s.requests[s.reqRead].offset in s.store
    ensures Runs(c, s, steps, s') && Sized(c, s')
    ensures var req := s.requests[s.reqRead]; var page := s.store[req.offset];
      s' == Answered(c, s, 0, Outcome(true, page)).(staging := s.staging[req.slot := page])
  {
    hide Advance, Runs;
    var req := s.requests[s.reqRead];
    var page := s.store[req.offset];
    var s1 := Apply(c, s, DPoll);
    var s2 := Apply(c, s1, DFetch);
    var s3 := Apply(c, s2, DLoad(true));
    var s4 := Apply(c, s3, DCopyOut);
    s' := Answered(c, s, 0, Outcome(true, page)).(staging := s.staging[req.slot := page]);
    CompleteRun(c, s, s4, 0, Outcome(true, page));
    var tail := [DAdvance, DWrite, DPublish];
    RunsCons(c, s3, DCopyOut, tail, s');
    RunsCons(c, s2, DLoad(true), [DCopyOut] + tail, s');
    RunsCons(c, s1, DFetch, [DLoad(true)] + ([DCopyOut] + tail), s');
    steps := [DPoll] + ([DFetch] + ([DLoad(true)] + ([DCopyOut] + tail)));
    RunsCons(c, s, DPoll, [DFetch] + ([DLoad(true)] + ([DCopyOut] + tail)), s');
  }

  // ------------------------------------------------------------ the harvester

  predicate CanHarvest(c: Config, s: State) {
    && Sized(c, s) && s.h.HIdle? && s.compRead != s.compWrite && Advance(s.compRead, c.cap) < c.cap
    && var comp := s.completions[s.compRead];
    && comp.result == 0 && 1 <= comp.seqNo <= c.depth
    && s.rqs[comp.seqNo - 1].Some? && s.cmds[comp.seqNo - 1].slot < c.cap
  }

  /** The page a request ends with: for a read, what is in its staging slot now. */
  function EndsWith(s: State, tag: nat): Page
    requires tag < |s.rqs| && tag < |s.cmds| && s.rqs[tag].Some? && s.cmds[tag].slot < |s.staging|
  {
    if s.cmds[tag].isRead then s.staging[s.cmds[tag].slot] else s.rqs[tag].value.data
  }

  /** The request of the oldest completion ended, its slot freed. */
  function HarvestTo(c: Config, s: State): State
    requires CanHarvest(c, s)
  {
    var tag := s.completions[s.compRead].seqNo - 1;
    var slot := s.cmds[tag].slot;
    s.(compRead := Advance(s.compRead, c.cap), bitmap := s.bitmap[slot := false], rqs := s.rqs[tag := None],
       g := s.g.(popped := s.g.popped + 1, endings := s.g.endings + [Ending(true, EndsWith(s, tag))],
                 slotUse := s.g.slotUse[slot := Free], tagUse := s.g.tagUse[tag := Free]))
  }

  lemma HarvestRun(c: Config, s: State)
    requires CanHarvest(c, s)
    ensures Runs(c, s, [HPoll, HFetch, HAdvance, HDeliver, HFree, HEnd], HarvestTo(c, s)) && Sized(c, HarvestTo(c, s))
  {
    hide Advance, Runs;
    var s1 := Apply(c, s, HPoll);
    var s2 := Apply(c, s1, HFetch);
    var s3 := Apply(c, s2, HAdvance);
    var s4 := Apply(c, s3, HDeliver);
    var s5 := Apply(c, s4, HFree);
    var s' := Apply(c, s5, HEnd);
    assert s' == HarvestTo(c, s);
    RunsFive(c, s, [HPoll, HFetch, HAdvance, HDeliver, HFree], s1, s2, s3, s4, s5);
    RunsOne(c, s5, HEnd);
    RunsConcat(c, s, [HPoll, HFetch, HAdvance, HDeliver, HFree], s5, [HEnd], s');
    assert [HPoll, HFetch, HAdvance, HDeliver, HFree] + [HEnd] == [HPoll, HFetch, HAdvance, HDeliver, HFree, HEnd];
  }
}
