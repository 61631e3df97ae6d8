/**
 What the swap protocol guarantees over whole runs: reads deliver the last write,
 every request ends once, slots and ring entries are never shared.
 */
module SwapSafety {
  import opened SwapProtocol
  import opened SwapInvariant

  // ------------------------------------------------------------ steps and runs

  lemma StepKeeps(c: Config, s: State, step: Step)
    requires ValidConfig(c) && Inv(c, s) && Guard(c, s, step)
    ensures Inv(c, Apply(c, s, step))
  {
    hide Inv;
    match step
    case KAlloc(tag, bio) => AllocKeeps(c, s, tag, bio);
    case KFill => FillKeeps(c, s);
    case KCheck => CheckKeeps(c, s);
    case KWrite => WriteKeeps(c, s);
    case KPublish => PublishKeeps(c, s);
    case KBackOut => BackOutKeeps(c, s);
    case DPoll => PollKeeps(c, s);
    case DFetch => FetchKeeps(c, s);
    case DCopyIn => CopyInKeeps(c, s);
    case DStore(ok, next) => StoreKeeps(c, s, ok, next);
    case DLoad(ok) => LoadKeeps(c, s, ok);
    case DReject => NeverRejects(c, s);
    case DCopyOut => CopyOutKeeps(c, s);
    case DAdvance => DaemonAdvanceKeeps(c, s);
    case DWrite => DaemonHolds(c, s, step); RoomToPublish(c, s); CompleteKeeps(c, s);
    case DPublish => DaemonHolds(c, s, step); RoomToPublish(c, s); DaemonPublishKeeps(c, s);
    case HPoll => HarvestPollKeeps(c, s);
    case HFetch => HarvestFetchKeeps(c, s);
    case HAdvance => HarvestAdvanceKeeps(c, s);
    case HDeliver => DeliverKeeps(c, s);
    case HFree => FreeKeeps(c, s);
    case HEnd => EndKeeps(c, s);
  }

  lemma {:induction false} RunKeeps(c: Config, s: State, steps: seq<Step>, s': State)
    requires ValidConfig(c) && Inv(c, s)
    requires Runs(c, s, steps, s')
    ensures Inv(c, s')
    decreases |steps|
  {
    hide Inv, Guard, Apply;
    if steps != [] {
      StepKeeps(c, s, steps[0]);
      RunKeeps(c, Apply(c, s, steps[0]), steps[1..], s');
    }
  }

  lemma DaemonHolds(c: Config, s: State, step: Step)
    requires Inv(c, s) && Guard(c, s, step) && (step.DWrite? || step.DPublish?)
    ensures s.d.DAdvanced? || s.d.DWritten?
  {
  }

  /** The inductive invariant holds in every reachable state. */
  lemma Reachable(c: Config, steps: seq<Step>, s: State)
    requires ValidConfig(c)
    requires Runs(c, Init(c), steps, s)
    ensures Inv(c, s)
  {
    InitInv(c);
    RunKeeps(c, Init(c), steps, s);
  }

  // ------------------------------------------------------------ end to end

  /** Two sectors of 512 bytes lie in one 4096-byte page of the device. */
  predicate SamePage(a: nat, b: nat) {
    a * 512 / 4096 == b * 512 / 4096
  }

  /** Request `w` is the last write before request `i` to the page of the device that `i` is about. */
  predicate IsLastWrite(log: seq<Entry>, i: nat, w: nat)
    requires i < |log|
  {
    && w < i && log[w].isWrite && SamePage(log[w].sector, log[i].sector)
    && forall v | w < v < i && log[v].isWrite :: !SamePage(log[v].sector, log[i].sector)
  }

  /**
   Request `i` ended as it must: a read that ended OK delivered the page of the last
   write to its page of the device published before it, and that write ended OK too.
   */
  predicate EndedRight(s: State, i: nat)
    requires i < |s.g.endings| <= |s.g.log|
  {
    !s.g.log[i].isWrite && s.g.endings[i].ok ==>
      exists w | 0 <= w < i :: IsLastWrite(s.g.log, i, w) && s.g.endings[w].ok && s.g.endings[i].data == s.g.log[w].data
  }

  /** Requests get the same engine offset if and only if they are about the same page of the device. */
  lemma OffsetsApart(tag: nat, slot: nat, bio: Bio, tag': nat, slot': nat, bio': Bio)
    ensures RequestFor(tag, slot, bio).offset == RequestFor(tag', slot', bio').offset <==> SamePage(bio.sector, bio'.sector)
  {
    IndexIsPage(bio.sector, bio'.sector);
  }

  lemma IndexIsPage(a: nat, b: nat)
    ensures PageIndex(a) == PageIndex(b) <==> SamePage(a, b)
  {
    assert a * 512 / 4096 == a / 8 && b * 512 / 4096 == b / 8;
  }

  /** The last write to an index is the last write to the page of the device. */
  lemma LastWriteIs(cap: nat, log: seq<Entry>, i: nat)
    requires EntriesSound(cap, log) && i < |log|
    ensures var w := LastWrite(log, i, log[i].idx);
      && (w.Some? ==> IsLastWrite(log, i, w.value))
      && (w.None? ==> forall v | 0 <= v < i && log[v].isWrite :: !SamePage(log[v].sector, log[i].sector))
  {
    hide SamePage, PageIndex, LastWrite;
    forall v | 0 <= v < i ensures log[v].idx == log[i].idx <==> SamePage(log[v].sector, log[i].sector) {
      IndexIsPage(log[v].sector, log[i].sector);
    }
  }

  lemma EndToEnd(c: Config, steps: seq<Step>, s: State)
    requires ValidConfig(c)
    requires Runs(c, Init(c), steps, s)
    ensures |s.g.endings| <= |s.g.log|
    ensures forall i | 0 <= i < |s.g.endings| :: EndedRight(s, i)
  {
    Reachable(c, steps, s);
    forall i | 0 <= i < |s.g.endings| ensures EndedRight(s, i) {
      EndedFromInv(c, s, i);
    }
  }

  lemma EndedFromInv(c: Config, s: State, i: nat)
    requires Inv(c, s) && i < |s.g.endings|
    ensures EndedRight(s, i)
  {
    hide RequestsHold, CompletionsHold, SlotsOwned, TagsOwned, HandHeld, HandFilled, HandWritten, DaemonAt;
    hide HarvesterAt, StoresStaged, LoadsStaged, StoreSound, EntriesSound, IsLastWrite;
    assert s.g.endings[i].ok == s.g.outcomes[i].ok;
    LastWriteIs(c.cap, s.g.log, i);
  }

  /**
   The log and the endings only grow. The one step that ends a request ends the
   oldest one not yet ended, under its own tag; so request `i` is ended exactly by
   the `i`-th ending.
   */
  lemma EndsOnceInOrder(c: Config, s: State, step: Step)
    requires Inv(c, s) && Guard(c, s, step)
    ensures var s' := Apply(c, s, step);
            && (step.KPublish? ==> |s'.g.log| == |s.g.log| + 1 && s'.g.log[|s.g.log|].tag == s.k.tag)
            && (!step.KPublish? ==> s'.g.log == s.g.log)
            && s.g.log <= s'.g.log
            && (step.HEnd? ==>
                  && |s.g.endings| < |s.g.log| && s.g.log[|s.g.endings|].tag == s.h.tag
                  && |s'.g.endings| == |s.g.endings| + 1)
            && (!step.HEnd? ==> s'.g.endings == s.g.endings)
            && s.g.endings <= s'.g.endings
  {
    hide RequestsHold, CompletionsHold, SlotsOwned, TagsOwned, HandHeld, HandFilled, HandWritten, DaemonAt;
    hide StoresStaged, LoadsStaged, StoreSound, LoadsSound, EndingsSound;
  }

  function Publishes(steps: seq<Step>): nat {
    if steps == [] then 0 else (if steps[0].KPublish? then 1 else 0) + Publishes(steps[1..])
  }

  function Ends(steps: seq<Step>): nat {
    if steps == [] then 0 else (if steps[0].HEnd? then 1 else 0) + Ends(steps[1..])
  }

  /**
   Over any run, each publication adds one request and each end-of-request step ends
   one more, the next in order; nothing is ended that was not published, and what
   happened to a request never changes afterwards.
   */
  lemma {:induction false} EndedOnce(c: Config, s: State, steps: seq<Step>, s': State)
    requires ValidConfig(c) && Inv(c, s) && Runs(c, s, steps, s')
    ensures s.g.log <= s'.g.log && |s'.g.log| == |s.g.log| + Publishes(steps)
    ensures s.g.endings <= s'.g.endings && |s'.g.endings| == |s.g.endings| + Ends(steps)
    ensures |s'.g.endings| <= |s'.g.log|
    decreases |steps|
  {
    hide Inv, Guard, Apply;
    if steps == [] {
      EndedPublished(c, s);
    } else {
      EndsOnceInOrder(c, s, steps[0]);
      StepKeeps(c, s, steps[0]);
      EndedOnce(c, Apply(c, s, steps[0]), steps[1..], s');
    }
  }

  lemma EndedPublished(c: Config, s: State)
    requires Inv(c, s)
    ensures |s.g.endings| <= |s.g.log|
  {
  }

  // ------------------------------------------------------------ exclusivity

  /** Requests in flight have pairwise distinct tags and slots, and the set bits are their slots. */
  lemma Exclusive(c: Config, s: State)
    requires Inv(c, s)
    ensures forall i, j | |s.g.endings| <= i < j < |s.g.log| :: s.g.log[i].tag != s.g.log[j].tag
    ensures forall i, j | Owning(s) <= i < j < |s.g.log| :: s.g.log[i].slot != s.g.log[j].slot
    ensures forall b | 0 <= b < c.cap ::
              s.bitmap[b] <==> b == HandSlot(s.k) || exists i :: Owning(s) <= i < |s.g.log| && s.g.log[i].slot == b
  {
    hide RequestsHold, CompletionsHold, HandFilled, HandWritten, DaemonAt, HarvesterAt;
    hide StoresStaged, LoadsStaged, StoreSound, LoadsSound, EndingsSound;
    forall i, j | |s.g.endings| <= i < j < |s.g.log| ensures s.g.log[i].tag != s.g.log[j].tag {
      assert s.g.tagUse[s.g.log[i].tag] == Logged(i) && s.g.tagUse[s.g.log[j].tag] == Logged(j);
    }
    forall i, j | Owning(s) <= i < j < |s.g.log| ensures s.g.log[i].slot != s.g.log[j].slot {
      assert s.g.slotUse[s.g.log[i].slot] == Logged(i) && s.g.slotUse[s.g.log[j].slot] == Logged(j);
    }
    forall b | 0 <= b < c.cap
      ensures s.bitmap[b] <==> b == HandSlot(s.k) || exists i :: Owning(s) <= i < |s.g.log| && s.g.log[i].slot == b
    {
      match s.g.slotUse[b]
      case Free =>
        forall i | Owning(s) <= i < |s.g.log| ensures s.g.log[i].slot != b {
          assert s.g.slotUse[s.g.log[i].slot] == Logged(i);
        }
      case InHand =>
      case Logged(i) => assert s.g.log[i].slot == b;
    }
  }

  /**
   No two threads touch the same memory at once: the daemon never copies the
   request entry being written, the harvester never copies the completion entry
   being written, and the staging slots the three threads work on are distinct.
   */
  lemma RaceFree(c: Config, s: State)
    requires Inv(c, s)
    ensures s.k.KWriting? && s.d.DSeen? ==> s.reqWrite != s.reqRead
    ensures s.d.DAdvanced? && (s.h.HSeen? || s.h.HGot?) ==> s.compWrite != s.compRead
    ensures !s.k.KIdle? && s.d.DGot? ==> s.k.slot != s.d.req.slot
    ensures !s.k.KIdle? && s.d.DLoaded? ==> s.k.slot != s.d.req.slot
    ensures s.h.HPopped? && (s.d.DGot? || s.d.DLoaded?) ==> s.h.comp.slot != s.d.req.slot
    ensures s.h.HPopped? && !s.k.KIdle? ==> s.h.comp.slot != s.k.slot
  {
    hide RequestsHold, CompletionsHold, TagsOwned, HandFilled;
    hide StoresStaged, LoadsStaged, StoreSound, LoadsSound, EndingsSound;
    var e, p := |s.g.endings|, s.g.polled;
    if s.d.DAdvanced? {
      RoomToPublish(c, s);
    }
    if s.d.DGot? || s.d.DLoaded? {
      assert s.g.slotUse[s.g.log[p].slot] == Logged(p);
    }
    if s.h.HPopped? {
      assert s.g.slotUse[s.g.log[e].slot] == Logged(e);
    }
  }

  /** Ring delivery: what the daemon copies is the oldest unread request, and likewise for the harvester. */
  lemma DeliveredInOrder(c: Config, s: State)
    requires Inv(c, s)
    ensures s.d.DSeen? ==> s.g.polled < |s.g.log| && s.requests[s.reqRead] == RequestOf(s.g.log[s.g.polled])
    ensures s.h.HSeen? ==>
              && s.g.popped < |s.g.log| && s.g.popped < |s.g.outcomes|
              && s.completions[s.compRead] == CompletionOf(s.g.log[s.g.popped], s.g.outcomes[s.g.popped])
    ensures s.reqRead != s.reqWrite <==> s.g.polled < |s.g.log|
    ensures s.compRead != s.compWrite <==> s.g.popped < s.g.completed < s.g.popped + c.cap
  {
    hide SlotsOwned, TagsOwned, HandHeld, HandFilled, HandWritten;
    hide StoresStaged, LoadsStaged, StoreSound, LoadsSound, EndingsSound;
  }
}
