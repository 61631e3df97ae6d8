/**
 What the driver's timeout handler does to the swap protocol, and so why it is not
 one of its steps. It frees the staging slot of a request that may still be anywhere
 between the submitter and the harvester.
 */
module SwapTimeout {
  import opened Bits
  import opened Pages
  import opened SwapProtocol
  import opened SwapInvariant
  import opened SwapSafety
  import opened SwapRuns

  /** `duvm_timeout`: clears the request's slot bit and nothing else. */
  function Timeout(s: State, tag: nat): State
    requires tag < |s.cmds| && s.cmds[tag].slot < |s.bitmap|
  {
    s.(bitmap := s.bitmap[s.cmds[tag].slot := false])
  }

  // ------------------------------------------------------------ exactly when it does harm

  /** The driver data of a request in flight name its slot, so that is the bit a timeout clears. */
  lemma TimeoutClears(c: Config, s: State, i: nat)
    requires Inv(c, s) && |s.g.endings| <= i < |s.g.log|
    ensures s.g.log[i].tag < |s.cmds| && s.cmds[s.g.log[i].tag].slot == s.g.log[i].slot < |s.bitmap|
    ensures Timeout(s, s.g.log[i].tag) == s.(bitmap := s.bitmap[s.g.log[i].slot := false])
  {
    hide RequestsHold, CompletionsHold, HandHeld, HandFilled, HandWritten, DaemonAt, TagsOwned;
    hide StoresStaged, LoadsStaged, StoreSound, LoadsSound, EndingsSound;
    TagInFlight(c, s, i);
  }

  /**
   A timeout keeps the invariant exactly when it changes nothing: when the bit is clear
   already, the harvester having freed the slot and nobody having taken it since.
   */
  lemma TimeoutKeepsIff(c: Config, s: State, i: nat)
    requires Inv(c, s) && |s.g.endings| <= i < |s.g.log|
    ensures s.g.log[i].tag < |s.cmds| && s.cmds[s.g.log[i].tag].slot < |s.bitmap| && s.g.log[i].slot < |s.bitmap|
    ensures Inv(c, Timeout(s, s.g.log[i].tag)) <==> !s.bitmap[s.g.log[i].slot]
  {
    hide RequestsHold, CompletionsHold, HandHeld, HandFilled, HandWritten, DaemonAt, HarvesterAt, TagsOwned;
    hide StoresStaged, LoadsStaged, StoreSound, LoadsSound, EndingsSound;
    TimeoutClears(c, s, i);
    var b := s.g.log[i].slot;
    var s' := Timeout(s, s.g.log[i].tag);
    if s.bitmap[b] {
      assert s.g.slotUse[b] != Free && !s'.bitmap[b];
    } else {
      assert s'.bitmap == s.bitmap;
    }
  }

  lemma FirstZeroAfterClear(bits: seq<bool>, b: nat)
    requires b < |bits|
    ensures FirstZero(bits[b := false]) == if b <= FirstZero(bits) then b else FirstZero(bits)
  {
    FirstZeroIs(bits[b := false], if b <= FirstZero(bits) then b else FirstZero(bits));
  }

  /** After it the next submission takes the same slot exactly when no lower one is free. */
  lemma NextTakesSlotIff(c: Config, s: State, i: nat, tag: nat, bio: Bio)
    requires Inv(c, s) && |s.g.endings| <= i < |s.g.log|
    requires s.k.KIdle? && tag < c.depth && s.rqs[tag].None?
    ensures s.g.log[i].tag < |s.cmds| && s.cmds[s.g.log[i].tag].slot < |s.bitmap|
    ensures var s0 := Timeout(s, s.g.log[i].tag);
      && Sized(c, s0) && Guard(c, s0, KAlloc(tag, bio))
      && (Apply(c, s0, KAlloc(tag, bio)).k.slot == s.g.log[i].slot <==> s.g.log[i].slot <= FirstZero(s.bitmap))
  {
    hide RequestsHold, CompletionsHold, HandHeld, HandFilled, HandWritten, DaemonAt, HarvesterAt, TagsOwned, SlotsOwned;
    hide StoresStaged, LoadsStaged, StoreSound, LoadsSound, EndingsSound, FirstZero;
    TimeoutClears(c, s, i);
    FirstZeroAfterClear(s.bitmap, s.g.log[i].slot);
  }

  // ------------------------------------------------------------ a read gone wrong

  predicate NoneSet(bits: seq<bool>) {
    forall b | 0 <= b < |bits| :: !bits[b]
  }

  /** Nothing in flight. */
  predicate Resting(c: Config, s: State) {
    && Sized(c, s) && s.k.KIdle? && s.d.DIdle? && s.h.HIdle?
    && s.reqWrite == s.reqRead && s.compWrite == s.compRead
    && NoneSet(s.bitmap) && forall t | 0 <= t < c.depth :: s.rqs[t].None?
  }

  lemma Moves(idx: nat, cap: nat)
    requires IsPow2(cap) && cap >= 2 && idx < cap
    ensures Advance(idx, cap) < cap && Advance(idx, cap) != idx
  {
    AdvanceWraps(idx, cap);
  }

  /** A read of a page the engine holds, from submission to end. */
  lemma ReadServed(c: Config, s: State, idx: nat) returns (steps: seq<Step>, s': State)
    requires ValidConfig(c) && c.cap >= 2 && c.depth >= 1 && Resting(c, s) && idx in s.store
    ensures Runs(c, s, steps, s')
    ensures exists slot :: s'.g.log == s.g.log + [Entry(0, slot, false, idx * PAGE_SECTORS, idx, [])]
    ensures s'.g.endings == s.g.endings + [Ending(true, s.store[idx])]
  {
    hide Advance, Runs, FirstZero;
    var bio := Bio(false, idx * PAGE_SECTORS, []);
    FirstZeroIs(s.bitmap, 0);
    StageRun(c, s, 0, bio);
    var s1 := StageTo(c, s, 0, bio);
    Moves(s1.reqWrite, c.cap);
    PublishRun(c, s1);
    var s2 := PublishTo(c, s1);
    Moves(s2.compWrite, c.cap);
    var serve, s3 := LoadRun(c, s2);
    HarvestRun(c, s3);
    s' := HarvestTo(c, s3);
    assert s2.g.log == s.g.log + [Entry(0, 0, false, idx * PAGE_SECTORS, idx, [])];
    RunsConcat(c, s, [KAlloc(0, bio), KFill], s1, [KCheck, KWrite, KPublish], s2);
    RunsConcat(c, s, [KAlloc(0, bio), KFill] + [KCheck, KWrite, KPublish], s2, serve, s3);
    steps := [KAlloc(0, bio), KFill] + [KCheck, KWrite, KPublish] + serve + [HPoll, HFetch, HAdvance, HDeliver, HFree, HEnd];
    RunsConcat(c, s, [KAlloc(0, bio), KFill] + [KCheck, KWrite, KPublish] + serve, s3,
               [HPoll, HFetch, HAdvance, HDeliver, HFree, HEnd], s');
  }

  function StoreBio(idx: nat, page: Page): Bio {
    Bio(true, idx * PAGE_SECTORS, page)
  }

  /**
   Store `a` to index 0 is published under tag 0 in slot 0 and not yet read; after a
   timeout store `b` to index 1 is staged in the same slot; only then does the daemon
   serve the first one.
   */
  predicate Overwritten(c: Config, s: State, a: Page, b: Page) {
    && Sized(c, s) && c.cap >= 2 && c.depth >= 2
    && s.k == KReady(1, 0) && s.d.DIdle? && s.h.HIdle?
    && s.reqWrite == s.reqRead && s.compWrite == Advance(s.compRead, c.cap)
    && s.completions[s.compRead] == Completion(1, 0, 0)
    && s.rqs[0] == Some(StoreBio(0, a)) && s.rqs[1] == Some(StoreBio(1, b))
    && (forall t | 2 <= t < c.depth :: s.rqs[t].None?)
    && s.cmds[0] == s.cmds[1] == Cmd(0, false)
    && (forall i | 1 <= i < c.cap :: !s.bitmap[i])
    && s.staging[0] == b && s.store == map[0 := b]
    && s.g.log == [Entry(0, 0, true, 0, 0, a)] && s.g.endings == []
  }

  /** From a fresh ring: a store, its timeout, and the next store into its slot. */
  lemma OverwrittenRun(c: Config, a: Page, b: Page) returns (before: seq<Step>, s: State, after: seq<Step>, s': State)
    requires ValidConfig(c) && c.cap >= 2 && c.depth >= 2
    ensures Runs(c, Init(c), before, s)
    ensures s.g.log == [Entry(0, 0, true, 0, 0, a)] && s.g.outcomes == []
    ensures Sized(c, s) && s.rqs[0].Some? && s.cmds[0].slot < |s.bitmap|
    ensures Runs(c, Timeout(s, 0), after, s') && Overwritten(c, s', a, b)
  {
    hide Advance, Runs, FirstZero;
    var s0, bioA, bioB := Init(c), StoreBio(0, a), StoreBio(1, b);
    FirstZeroIs(s0.bitmap, 0);
    StageRun(c, s0, 0, bioA);
    var s1 := StageTo(c, s0, 0, bioA);
    Moves(0, c.cap);
    PublishRun(c, s1);
    s := PublishTo(c, s1);
    before := [KAlloc(0, bioA), KFill] + [KCheck, KWrite, KPublish];
    RunsConcat(c, s0, [KAlloc(0, bioA), KFill], s1, [KCheck, KWrite, KPublish], s);
    var t := Timeout(s, 0);
    FirstZeroIs(t.bitmap, 0);
    StageRun(c, t, 1, bioB);
    var t1 := StageTo(c, t, 1, bioB);
    var serve, t2 := StoreRun(c, t1);
    s' := t2;
    after := [KAlloc(1, bioB), KFill] + serve;
    RunsConcat(c, t, [KAlloc(1, bioB), KFill], t1, serve, t2);
  }

  /** Both stores then run to their end, each reported as a success. */
  lemma BothEnd(c: Config, s: State, a: Page, b: Page) returns (steps: seq<Step>, s': State)
    requires ValidConfig(c) && Overwritten(c, s, a, b)
    ensures Runs(c, s, steps, s') && Resting(c, s')
    ensures s'.store == map[0 := b, 1 := b]
    ensures s'.g.log == [Entry(0, 0, true, 0, 0, a), Entry(1, 0, true, PAGE_SECTORS, 1, b)]
    ensures |s'.g.endings| == 2 && s'.g.endings[0].ok && s'.g.endings[1].ok
  {
    hide Advance, Runs, FirstZero;
    Moves(s.reqWrite, c.cap);
    Moves(s.compRead, c.cap);
    PublishRun(c, s);
    var s1 := PublishTo(c, s);
    HarvestRun(c, s1);
    var s2 := HarvestTo(c, s1);
    Moves(s2.compWrite, c.cap);
    var serve, s3 := StoreRun(c, s2);
    HarvestRun(c, s3);
    s' := HarvestTo(c, s3);
    var publish, harvest := [KCheck, KWrite, KPublish], [HPoll, HFetch, HAdvance, HDeliver, HFree, HEnd];
    RunsConcat(c, s, publish, s1, harvest, s2);
    RunsConcat(c, s, publish + harvest, s2, serve, s3);
    RunsConcat(c, s, publish + harvest + serve, s3, harvest, s');
    steps := publish + harvest + serve + harvest;
  }

  /**
   One timeout is enough to break the end-to-end guarantee, for every ring and queue of
   at least two: a run ends a read of index 0 as a success with the page another store
   wrote to index 1.
   */
  lemma TimeoutLosesPage(c: Config, a: Page, b: Page)
    returns (before: seq<Step>, s: State, after: seq<Step>, s': State)
    requires ValidConfig(c) && c.cap >= 2 && c.depth >= 2 && a != b
    ensures Runs(c, Init(c), before, s)
    ensures |s.g.log| == 1 && s.g.log[0].tag == 0
    ensures Sized(c, s) && s.rqs[0].Some? && s.cmds[0].slot < |s.bitmap|
    ensures Runs(c, Timeout(s, 0), after, s')
    ensures |s'.g.endings| == |s'.g.log| == 3 && !EndedRight(s', 2)
    ensures IsLastWrite(s'.g.log, 2, 0) && s'.g.log[0].data == a
    ensures s'.g.endings[0].ok && s'.g.endings[1].ok && s'.g.endings[2] == Ending(true, b)
  {
    hide Runs, Resting;
    var mid, m;
    before, s, mid, m := OverwrittenRun(c, a, b);
    var ends, r := BothEnd(c, m, a, b);
    var read;
    read, s' := ReadServed(c, r, 0);
    RunsConcat(c, Timeout(s, 0), mid, m, ends, r);
    RunsConcat(c, Timeout(s, 0), mid + ends, r, read, s');
    after := mid + ends + read;
    assert LastWrite(s'.g.log, 2, 0) == Some(0) by {
      assert LastWrite(s'.g.log, 1, 0) == Some(0);
    }
  }
}
