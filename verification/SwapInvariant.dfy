/**
 The inductive invariant of the swap protocol and the proof that every step of
 every thread keeps it. The daemon publishes completions without looking for room;
 that none is overwritten rests on the staging slots, of which there are as many
 as ring entries.
 */
module SwapInvariant {
  import opened Bits
  import opened Counting
  import opened Pages
  import opened SwapProtocol

  // ------------------------------------------------------------ what the log means

  /** The last write to `idx` among the first `n` requests. */
  function LastWrite(log: seq<Entry>, n: nat, idx: nat): (r: Option<nat>)
    requires n <= |log|
    ensures r.Some? ==> r.value < n && log[r.value].isWrite && log[r.value].idx == idx
    ensures r.Some? ==> forall j | r.value < j < n :: !(log[j].isWrite && log[j].idx == idx)
    ensures r.None? ==> forall j | 0 <= j < n :: !(log[j].isWrite && log[j].idx == idx)
  {
    if n == 0 then None
    else if log[n - 1].isWrite && log[n - 1].idx == idx then Some(n - 1)
    else LastWrite(log, n - 1, idx)
  }

  /** `page` is what the last write to `idx` before request `n` wrote, and that write succeeded. */
  predicate Current(log: seq<Entry>, outcomes: seq<Outcome>, n: nat, idx: nat, page: Page)
    requires n <= |log| && n <= |outcomes|
  {
    var w := LastWrite(log, n, idx);
    w.Some? && outcomes[w.value].ok && log[w.value].data == page
  }

  lemma {:induction false} LastWriteAppend(log: seq<Entry>, more: seq<Entry>, n: nat, idx: nat)
    requires n <= |log|
    ensures LastWrite(log + more, n, idx) == LastWrite(log, n, idx)
  {
    if n != 0 { LastWriteAppend(log, more, n - 1, idx); }
  }

  function RequestOf(e: Entry): Request {
    Request(if e.isWrite then OP_STORE else OP_LOAD, e.tag + 1, e.idx, e.slot)
  }

  function CompletionOf(e: Entry, o: Outcome): Completion {
    Completion(e.tag + 1, ResultCode(o.ok), e.slot)
  }

  // ------------------------------------------------------------ the invariant

  /** First request that still owns its staging slot. */
  function Owning(s: State): nat {
    |s.g.endings| + if s.h.HFreed? then 1 else 0
  }

  /** The four ring indices are the four counts, and the counts are in order. */
  predicate Counts(c: Config, s: State)
    requires c.cap > 0
  {
    && |s.g.endings| <= s.g.popped <= s.g.completed <= s.g.polled <= |s.g.log|
    && Owning(s) <= s.g.popped
    && |s.g.log| - s.g.polled < c.cap
    && s.g.completed - s.g.popped <= c.cap
    && s.reqRead < c.cap && s.reqWrite == Wrap(s.reqRead + (|s.g.log| - s.g.polled), c.cap)
    && s.compRead < c.cap && s.compWrite == Wrap(s.compRead + (s.g.completed - s.g.popped), c.cap)
    && s.g.polled <= |s.g.outcomes| <= |s.g.log|
  }

  /** The request ring holds the published, unread requests, in order from its read index. */
  predicate RequestsHold(cap: nat, requests: seq<Request>, read: nat, log: seq<Entry>, polled: nat)
    requires |requests| == cap && read < cap && polled <= |log| < polled + cap
  {
    forall i | polled <= i < |log| :: requests[Wrap(read + (i - polled), cap)] == RequestOf(log[i])
  }

  /** The completion ring holds the answered, unharvested requests, in order from its read index. */
  predicate CompletionsHold(cap: nat, completions: seq<Completion>, read: nat, log: seq<Entry>,
                            outcomes: seq<Outcome>, popped: nat, completed: nat)
    requires |completions| == cap && read < cap && completed <= popped + cap
    requires completed <= |log| && completed <= |outcomes|
  {
    forall i | popped <= i < completed ::
      completions[Wrap(read + (i - popped), cap)] == CompletionOf(log[i], outcomes[i])
  }

  function HandSlot(k: Submitter): int {
    if k.KIdle? then -1 else k.slot
  }

  function HandTag(k: Submitter): int {
    if k.KIdle? then -1 else k.tag
  }

  /**
   The set bits of the bitmap are exactly the slots of the requests from `from`
   on and the one in the submitter's hand. Each slot records its one user, so no
   two requests share a slot.
   */
  predicate SlotsOwned(cap: nat, bitmap: seq<bool>, slotUse: seq<Use>, log: seq<Entry>, from: nat, hand: int)
    requires |bitmap| == |slotUse| == cap
  {
    && (forall i | from <= i < |log| :: log[i].slot < cap && slotUse[log[i].slot] == Logged(i))
    && (forall b | 0 <= b < cap :: bitmap[b] <==> slotUse[b] != Free)
    && (forall b | 0 <= b < cap && slotUse[b].Logged? ::
          from <= slotUse[b].at < |log| && log[slotUse[b].at].slot == b)
    && (forall b | 0 <= b < cap && slotUse[b].InHand? :: b == hand)
  }

  /** Every slot ever used is one of the staging buffer, and every index that of its sector. */
  predicate EntriesSound(cap: nat, log: seq<Entry>) {
    forall i | 0 <= i < |log| :: log[i].slot < cap && log[i].idx == PageIndex(log[i].sector)
  }

  /** Likewise for blk-mq tags; the driver data of a tag in flight describe its request. */
  predicate TagsOwned(depth: nat, rqs: seq<Option<Bio>>, cmds: seq<Cmd>, tagUse: seq<Use>, log: seq<Entry>,
                      from: nat, hand: int)
    requires |rqs| == |cmds| == |tagUse| == depth
  {
    && (forall i | from <= i < |log| ::
          && log[i].tag < depth
          && tagUse[log[i].tag] == Logged(i)
          && rqs[log[i].tag].Some?
          && rqs[log[i].tag].value.isWrite == log[i].isWrite
          && cmds[log[i].tag] == Cmd(log[i].slot, !log[i].isWrite))
    && (forall t | 0 <= t < depth :: rqs[t].Some? <==> tagUse[t] != Free)
    && (forall t | 0 <= t < depth && tagUse[t].Logged? ::
          from <= tagUse[t].at < |log| && log[tagUse[t].at].tag == t)
    && (forall t | 0 <= t < depth && tagUse[t].InHand? :: t == hand)
  }

  /** A store's page stays in its staging slot until the engine has answered. */
  predicate StoresStaged(cap: nat, staging: seq<Page>, log: seq<Entry>, from: nat)
    requires |staging| == cap
  {
    forall i | from <= i < |log| && log[i].isWrite :: log[i].slot < cap && staging[log[i].slot] == log[i].data
  }

  /** A load's page stays in its staging slot until it is delivered. */
  predicate LoadsStaged(cap: nat, staging: seq<Page>, log: seq<Entry>, outcomes: seq<Outcome>, from: nat, to: nat)
    requires |staging| == cap && to <= |log| && to <= |outcomes|
  {
    forall i | from <= i < to && !log[i].isWrite && outcomes[i].ok ::
      log[i].slot < cap && staging[log[i].slot] == outcomes[i].page
  }

  /** Loads before this request have their page in staging. */
  function Staged(s: State): nat
  {
    if s.d.DLoaded? then s.g.polled else |s.g.outcomes|
  }

  /** The request in the submitter's hand has a tag and a slot of its own. */
  predicate HandHeld(c: Config, k: Submitter, tagUse: seq<Use>, slotUse: seq<Use>, rqs: seq<Option<Bio>>)
    requires |tagUse| == |rqs| == c.depth && |slotUse| == c.cap
  {
    !k.KIdle? ==>
      && k.tag < c.depth && k.slot < c.cap
      && tagUse[k.tag] == InHand && slotUse[k.slot] == InHand
      && rqs[k.tag].Some?
  }

  /** Once filled, its driver data are set and a store's page is staged. */
  predicate HandFilled(k: Submitter, rqs: seq<Option<Bio>>, cmds: seq<Cmd>, staging: seq<Page>)
  {
    !k.KIdle? && !k.KHolds? ==>
      && k.tag < |rqs| && k.tag < |cmds| && k.slot < |staging| && rqs[k.tag].Some?
      && cmds[k.tag] == Cmd(k.slot, !rqs[k.tag].value.isWrite)
      && (rqs[k.tag].value.isWrite ==> staging[k.slot] == rqs[k.tag].value.data)
  }

  /** Past the full check there is room, and the written entry is the request. */
  predicate HandWritten(cap: nat, k: Submitter, rqs: seq<Option<Bio>>, requests: seq<Request>, write: nat, unread: int)
  {
    && (k.KWriting? || k.KPublishing? ==> unread + 1 < cap)
    && (k.KPublishing? ==>
          k.tag < |rqs| && rqs[k.tag].Some? && write < |requests|
          && requests[write] == RequestFor(k.tag, k.slot, rqs[k.tag].value))
  }

  /** The daemon's position: which request it serves and how far it is. */
  predicate DaemonAt(d: Daemon, log: seq<Entry>, outcomes: seq<Outcome>, p: nat, q: nat,
                     completions: seq<Completion>, write: nat)
  {
    match d
    case DIdle => q == p == |outcomes| <= |log|
    case DSeen => q == p == |outcomes| < |log|
    case DGot(req) => q == p == |outcomes| < |log| && req == RequestOf(log[p])
    case DStoring(req, page) =>
      q == p == |outcomes| < |log| && req == RequestOf(log[p]) && log[p].isWrite && page == log[p].data
    case DLoaded(req, page) =>
      && q == p && |outcomes| == p + 1 <= |log| && req == RequestOf(log[p])
      && !log[p].isWrite && outcomes[p] == Outcome(true, page)
    case DDone(req, result) =>
      && q == p && |outcomes| == p + 1 <= |log| && req == RequestOf(log[p])
      && result == ResultCode(outcomes[p].ok)
    case DAdvanced(req, result) =>
      && q + 1 == p == |outcomes| <= |log| && req == RequestOf(log[q])
      && result == ResultCode(outcomes[q].ok)
    case DWritten(req, result) =>
      && q + 1 == p == |outcomes| <= |log| && req == RequestOf(log[q])
      && result == ResultCode(outcomes[q].ok)
      && write < |completions| && completions[write] == CompletionOf(log[q], outcomes[q])
  }

  /** The harvester's position: it ends request `e`, and how far it is. */
  predicate HarvesterAt(h: Harvester, log: seq<Entry>, outcomes: seq<Outcome>, e: nat, popped: nat, completed: nat,
                        rqs: seq<Option<Bio>>)
  {
    match h
    case HIdle => popped == e
    case HSeen => popped == e < completed
    case HGot(comp) => popped == e < completed && AnswerTo(comp, log, outcomes, e)
    case HPopped(comp) => popped == e + 1 && AnswerTo(comp, log, outcomes, e)
    case HDelivered(tag, result) => popped == e + 1 && Delivered(tag, result, log, outcomes, e, rqs)
    case HFreed(tag, result) => popped == e + 1 && Delivered(tag, result, log, outcomes, e, rqs)
  }

  predicate AnswerTo(comp: Completion, log: seq<Entry>, outcomes: seq<Outcome>, e: nat) {
    e < |log| && e < |outcomes| && comp == CompletionOf(log[e], outcomes[e])
  }

  predicate Delivered(tag: nat, result: int, log: seq<Entry>, outcomes: seq<Outcome>, e: nat, rqs: seq<Option<Bio>>) {
    && e < |log| && e < |outcomes|
    && tag == log[e].tag
    && result == ResultCode(outcomes[e].ok)
    && (!log[e].isWrite && outcomes[e].ok ==>
          tag < |rqs| && rqs[tag].Some? && rqs[tag].value.data == outcomes[e].page)
  }

  /** What the engine holds is current: the last write, which succeeded. */
  predicate StoreSound(store: map<nat, Page>, log: seq<Entry>, outcomes: seq<Outcome>)
    requires |outcomes| <= |log|
  {
    forall o :: o in store ==> Current(log, outcomes, |outcomes|, o, store[o])
  }

  /** What the engine ever answered to a load was current when it answered. */
  predicate LoadsSound(log: seq<Entry>, outcomes: seq<Outcome>)
    requires |outcomes| <= |log|
  {
    forall i | 0 <= i < |outcomes| && !log[i].isWrite && outcomes[i].ok ::
      Current(log, outcomes, i, log[i].idx, outcomes[i].page)
  }

  /** Requests end in publication order, each with the engine's answer to it. */
  predicate EndingsSound(endings: seq<Ending>, log: seq<Entry>, outcomes: seq<Outcome>)
    requires |endings| <= |outcomes| <= |log|
  {
    forall i | 0 <= i < |endings| ::
      && endings[i].ok == outcomes[i].ok
      && (!log[i].isWrite && endings[i].ok ==> endings[i].data == outcomes[i].page)
  }

  predicate Inv(c: Config, s: State) {
    var g := s.g;
    && Sized(c, s)
    && Counts(c, s)
    && RequestsHold(c.cap, s.requests, s.reqRead, g.log, g.polled)
    && CompletionsHold(c.cap, s.completions, s.compRead, g.log, g.outcomes, g.popped, g.completed)
    && SlotsOwned(c.cap, s.bitmap, g.slotUse, g.log, Owning(s), HandSlot(s.k))
    && EntriesSound(c.cap, g.log)
    && TagsOwned(c.depth, s.rqs, s.cmds, g.tagUse, g.log, |g.endings|, HandTag(s.k))
    && HandHeld(c, s.k, g.tagUse, g.slotUse, s.rqs)
    && HandFilled(s.k, s.rqs, s.cmds, s.staging)
    && HandWritten(c.cap, s.k, s.rqs, s.requests, s.reqWrite, |g.log| - g.polled)
    && DaemonAt(s.d, g.log, g.outcomes, g.polled, g.completed, s.completions, s.compWrite)
    && HarvesterAt(s.h, g.log, g.outcomes, |g.endings|, g.popped, g.completed, s.rqs)
    && StoresStaged(c.cap, s.staging, g.log, |g.outcomes|)
    && LoadsStaged(c.cap, s.staging, g.log, g.outcomes, Owning(s), Staged(s))
    && StoreSound(s.store, g.log, g.outcomes)
    && LoadsSound(g.log, g.outcomes)
    && EndingsSound(g.endings, g.log, g.outcomes)
  }

  // ------------------------------------------------------------ every step keeps it

  /** Publishing a request changes nothing about the requests before it. */
  lemma SoundGrows(store: map<nat, Page>, log: seq<Entry>, e: Entry, outcomes: seq<Outcome>, endings: seq<Ending>)
    requires |endings| <= |outcomes| <= |log|
    requires StoreSound(store, log, outcomes) && LoadsSound(log, outcomes) && EndingsSound(endings, log, outcomes)
    ensures StoreSound(store, log + [e], outcomes) && LoadsSound(log + [e], outcomes)
    ensures EndingsSound(endings, log + [e], outcomes)
  {
    forall n: nat, o: nat | n <= |outcomes|
      ensures LastWrite(log + [e], n, o) == LastWrite(log, n, o)
    {
      LastWriteAppend(log, [e], n, o);
    }
  }

  lemma WindowsGrow(c: Config, s: State, e: Entry)
    requires Inv(c, s)
    ensures CompletionsHold(c.cap, s.completions, s.compRead, s.g.log + [e], s.g.outcomes, s.g.popped, s.g.completed)
    ensures DaemonAt(s.d, s.g.log + [e], s.g.outcomes, s.g.polled, s.g.completed, s.completions, s.compWrite)
    ensures HarvesterAt(s.h, s.g.log + [e], s.g.outcomes, |s.g.endings|, s.g.popped, s.g.completed, s.rqs)
    ensures LoadsStaged(c.cap, s.staging, s.g.log + [e], s.g.outcomes, Owning(s), Staged(s))
  {
    hide RequestsHold, SlotsOwned, TagsOwned, HandHeld, HandFilled, HandWritten, StoresStaged;
    hide StoreSound, LoadsSound, EndingsSound;
  }

  /** An answer changes nothing about the requests already answered. */
  lemma AnswersGrow(c: Config, s: State, o: Outcome)
    requires Inv(c, s) && |s.g.outcomes| < |s.g.log|
    ensures CompletionsHold(c.cap, s.completions, s.compRead, s.g.log, s.g.outcomes + [o], s.g.popped, s.g.completed)
    ensures HarvesterAt(s.h, s.g.log, s.g.outcomes + [o], |s.g.endings|, s.g.popped, s.g.completed, s.rqs)
    ensures EndingsSound(s.g.endings, s.g.log, s.g.outcomes + [o])
    ensures LoadsStaged(c.cap, s.staging, s.g.log, s.g.outcomes + [o], Owning(s), Staged(s))
    ensures StoresStaged(c.cap, s.staging, s.g.log, |s.g.outcomes| + 1)
  {
    hide RequestsHold, SlotsOwned, TagsOwned, HandHeld, HandFilled, HandWritten, StoreSound, LoadsSound;
  }

  /** A store answered: what the engine now holds is current, what it answered before still was. */
  lemma StoreAnswered(store: map<nat, Page>, log: seq<Entry>, outcomes: seq<Outcome>, ok: bool, next: map<nat, Page>)
    requires |outcomes| < |log| && log[|outcomes|].isWrite
    requires StoreSound(store, log, outcomes) && LoadsSound(log, outcomes)
    requires LossyStore(store, log[|outcomes|].idx, log[|outcomes|].data, ok, next)
    ensures StoreSound(next, log, outcomes + [Outcome(ok, [])])
    ensures LoadsSound(log, outcomes + [Outcome(ok, [])])
  {
    var n := |outcomes|;
    var outcomes' := outcomes + [Outcome(ok, [])];
    forall o | o in next ensures Current(log, outcomes', n + 1, o, next[o]) {
      if o != log[n].idx {
        assert o in next - {log[n].idx};
        assert Current(log, outcomes, n, o, store[o]);
      }
    }
  }

  lemma LoadAnswered(store: map<nat, Page>, log: seq<Entry>, outcomes: seq<Outcome>, answer: Outcome)
    requires |outcomes| < |log| && !log[|outcomes|].isWrite
    requires StoreSound(store, log, outcomes) && LoadsSound(log, outcomes)
    requires answer.ok ==> log[|outcomes|].idx in store && answer.page == store[log[|outcomes|].idx]
    ensures StoreSound(store, log, outcomes + [answer])
    ensures LoadsSound(log, outcomes + [answer])
  {
    var n := |outcomes|;
    forall o | o in store ensures Current(log, outcomes + [answer], n + 1, o, store[o]) {
      assert Current(log, outcomes, n, o, store[o]);
    }
  }

  lemma SlotTaken(cap: nat, bitmap: seq<bool>, slotUse: seq<Use>, log: seq<Entry>, from: nat, slot: nat)
    requires |bitmap| == |slotUse| == cap && slot < cap && !bitmap[slot]
    requires SlotsOwned(cap, bitmap, slotUse, log, from, -1)
    ensures SlotsOwned(cap, bitmap[slot := true], slotUse[slot := InHand], log, from, slot)
  {
  }

  lemma SlotFreed(cap: nat, bitmap: seq<bool>, slotUse: seq<Use>, log: seq<Entry>, from: nat, hand: int)
    requires |bitmap| == |slotUse| == cap && from < |log| && log[from].slot < cap
    requires SlotsOwned(cap, bitmap, slotUse, log, from, hand)
    ensures var b := log[from].slot;
            SlotsOwned(cap, bitmap[b := false], slotUse[b := Free], log, from + 1, hand)
  {
  }

  lemma SlotPublished(cap: nat, bitmap: seq<bool>, slotUse: seq<Use>, log: seq<Entry>, from: nat, e: Entry)
    requires |bitmap| == |slotUse| == cap && from <= |log| && e.slot < cap && slotUse[e.slot] == InHand
    requires SlotsOwned(cap, bitmap, slotUse, log, from, e.slot)
    ensures SlotsOwned(cap, bitmap, slotUse[e.slot := Logged(|log|)], log + [e], from, -1)
  {
  }

  lemma RequestPublished(cap: nat, requests: seq<Request>, read: nat, log: seq<Entry>, polled: nat, e: Entry)
    requires |requests| == cap && read < cap && polled <= |log| && |log| + 1 < polled + cap
    requires RequestsHold(cap, requests, read, log, polled)
    requires requests[Wrap(read + (|log| - polled), cap)] == RequestOf(e)
    ensures RequestsHold(cap, requests, read, log + [e], polled)
  {
  }

  lemma CompletionPublished(cap: nat, completions: seq<Completion>, read: nat, log: seq<Entry>,
                            outcomes: seq<Outcome>, popped: nat, completed: nat)
    requires |completions| == cap && read < cap && popped <= completed < popped + cap
    requires completed < |log| && completed < |outcomes|
    requires CompletionsHold(cap, completions, read, log, outcomes, popped, completed)
    requires completions[Wrap(read + (completed - popped), cap)] == CompletionOf(log[completed], outcomes[completed])
    ensures CompletionsHold(cap, completions, read, log, outcomes, popped, completed + 1)
  {
  }

  lemma StorePublished(cap: nat, staging: seq<Page>, log: seq<Entry>, from: nat, e: Entry)
    requires |staging| == cap && e.slot < cap && (e.isWrite ==> staging[e.slot] == e.data)
    requires StoresStaged(cap, staging, log, from)
    ensures StoresStaged(cap, staging, log + [e], from)
  {
  }

  lemma TagPublished(depth: nat, rqs: seq<Option<Bio>>, cmds: seq<Cmd>, tagUse: seq<Use>, log: seq<Entry>,
                     from: nat, e: Entry)
    requires |rqs| == |cmds| == |tagUse| == depth && from <= |log| && e.tag < depth && tagUse[e.tag] == InHand
    requires TagsOwned(depth, rqs, cmds, tagUse, log, from, e.tag)
    requires rqs[e.tag].Some? && rqs[e.tag].value.isWrite == e.isWrite && cmds[e.tag] == Cmd(e.slot, !e.isWrite)
    ensures TagsOwned(depth, rqs, cmds, tagUse[e.tag := Logged(|log|)], log + [e], from, -1)
  {
  }

  lemma TagDelivered(depth: nat, rqs: seq<Option<Bio>>, cmds: seq<Cmd>, tagUse: seq<Use>, log: seq<Entry>,
                     from: nat, hand: int, tag: nat, bio: Bio)
    requires |rqs| == |cmds| == |tagUse| == depth && from < |log| && tag == log[from].tag
    requires TagsOwned(depth, rqs, cmds, tagUse, log, from, hand)
    requires tag < depth && rqs[tag].Some? && bio.isWrite == rqs[tag].value.isWrite
    ensures TagsOwned(depth, rqs[tag := Some(bio)], cmds, tagUse, log, from, hand)
  {
  }

  lemma TagEnded(depth: nat, rqs: seq<Option<Bio>>, cmds: seq<Cmd>, tagUse: seq<Use>, log: seq<Entry>,
                 from: nat, hand: int, tag: nat)
    requires |rqs| == |cmds| == |tagUse| == depth && from < |log| && tag == log[from].tag
    requires TagsOwned(depth, rqs, cmds, tagUse, log, from, hand)
    ensures tag < depth && TagsOwned(depth, rqs[tag := None], cmds, tagUse[tag := Free], log, from + 1, hand)
  {
  }

  /** A request in flight is known to blk-mq, described by its driver data, and not the one in hand. */
  lemma TagInFlight(c: Config, s: State, i: nat)
    requires Inv(c, s) && |s.g.endings| <= i < |s.g.log|
    ensures var e := s.g.log[i];
            && e.tag < c.depth && s.rqs[e.tag].Some? && s.rqs[e.tag].value.isWrite == e.isWrite
            && s.cmds[e.tag] == Cmd(e.slot, !e.isWrite) && HandTag(s.k) != e.tag
            && e.slot < c.cap && (Owning(s) <= i ==> HandSlot(s.k) != e.slot)
  {
    hide RequestsHold, CompletionsHold, DaemonAt, HarvesterAt, HandFilled, HandWritten;
    hide StoresStaged, LoadsStaged, StoreSound, LoadsSound, EndingsSound;
    var e := s.g.log[i];
    assert s.g.tagUse[e.tag] == Logged(i);
  }

  lemma TagTaken(depth: nat, rqs: seq<Option<Bio>>, cmds: seq<Cmd>, tagUse: seq<Use>, log: seq<Entry>,
                 from: nat, tag: nat, bio: Bio)
    requires |rqs| == |cmds| == |tagUse| == depth && tag < depth && rqs[tag].None?
    requires TagsOwned(depth, rqs, cmds, tagUse, log, from, -1)
    ensures TagsOwned(depth, rqs[tag := Some(bio)], cmds, tagUse[tag := InHand], log, from, tag)
  {
  }

  function SlotsFrom(log: seq<Entry>, from: nat): (r: seq<nat>)
    requires from <= |log|
    ensures |r| == |log| - from && forall i | 0 <= i < |r| :: r[i] == log[from + i].slot
    decreases |log| - from
  {
    if from == |log| then [] else [log[from].slot] + SlotsFrom(log, from + 1)
  }

  /** Every request in flight owns a slot, so there are no more of them than slots; with that many, no slot is free. */
  lemma SlotsBound(c: Config, s: State)
    requires Inv(c, s)
    ensures |s.g.log| - Owning(s) <= c.cap
    ensures |s.g.log| - Owning(s) == c.cap ==> forall b | 0 <= b < c.cap :: s.bitmap[b]
  {
    hide RequestsHold, CompletionsHold, TagsOwned, HandHeld, HandFilled, HandWritten, DaemonAt, HarvesterAt;
    hide StoresStaged, LoadsStaged, StoreSound, LoadsSound, EndingsSound;
    var from, log := Owning(s), s.g.log;
    var slots := SlotsFrom(log, from);
    forall i, j | 0 <= i < j < |slots| ensures slots[i] != slots[j] {
      assert s.g.slotUse[log[from + i].slot] == Logged(from + i) && s.g.slotUse[log[from + j].slot] == Logged(from + j);
    }
    Pigeonhole(slots, c.cap);
    if |slots| == c.cap {
      forall b | 0 <= b < c.cap ensures s.bitmap[b] {
        assert b in slots;
        var i :| 0 <= i < |slots| && slots[i] == b;
        assert s.g.slotUse[log[from + i].slot] == Logged(from + i);
      }
    }
  }

  /** The daemon's unguarded publish never overwrites a completion. */
  lemma RoomToPublish(c: Config, s: State)
    requires Inv(c, s) && (s.d.DAdvanced? || s.d.DWritten?)
    ensures s.g.completed - s.g.popped + 1 <= c.cap
  {
    hide RequestsHold, CompletionsHold, TagsOwned, HandHeld, HandFilled, HandWritten, SlotsOwned, HarvesterAt;
    hide StoresStaged, LoadsStaged, StoreSound, LoadsSound, EndingsSound;
    SlotsBound(c, s);
  }

  lemma InitInv(c: Config)
    requires ValidConfig(c)
    ensures Inv(c, Init(c))
  {
  }

  lemma AllocKeeps(c: Config, s: State, tag: nat, bio: Bio)
    requires ValidConfig(c) && Inv(c, s) && Guard(c, s, KAlloc(tag, bio))
    ensures Inv(c, ApplySubmitter(c, s, KAlloc(tag, bio)))
  {
    hide RequestsHold, CompletionsHold, SlotsOwned, TagsOwned, DaemonAt, StoresStaged, LoadsStaged,
      StoreSound, LoadsSound, EndingsSound, EntriesSound;
    SlotTaken(c.cap, s.bitmap, s.g.slotUse, s.g.log, Owning(s), FirstZero(s.bitmap));
    if |s.g.endings| < |s.g.log| { TagInFlight(c, s, |s.g.endings|); }
    TagTaken(c.depth, s.rqs, s.cmds, s.g.tagUse, s.g.log, |s.g.endings|, tag, bio);
  }

  lemma FillKeeps(c: Config, s: State)
    requires ValidConfig(c) && Inv(c, s) && Guard(c, s, KFill)
    ensures Inv(c, ApplySubmitter(c, s, KFill))
  {
    hide RequestsHold, CompletionsHold, DaemonAt, HarvesterAt, StoreSound, LoadsSound, EndingsSound, EntriesSound;
  }

  lemma CheckKeeps(c: Config, s: State)
    requires ValidConfig(c) && Inv(c, s) && Guard(c, s, KCheck)
    ensures Inv(c, ApplySubmitter(c, s, KCheck))
  {
    hide RequestsHold, CompletionsHold, SlotsOwned, TagsOwned, DaemonAt, HarvesterAt, StoresStaged,
      LoadsStaged, StoreSound, LoadsSound, EndingsSound, EntriesSound;
    if Advance(s.reqWrite, c.cap) != s.reqRead {
      RoomSeen(c.cap, s.reqRead, s.reqWrite, |s.g.log| - s.g.polled);
    }
    hide Advance;
  }

  /** A ring whose next write index is not its read index has room. */
  lemma RoomSeen(cap: nat, read: nat, write: nat, unread: nat)
    requires IsPow2(cap) && unread < cap && read < cap && write == Wrap(read + unread, cap) && write < cap
    requires Advance(write, cap) != read
    ensures unread + 1 < cap
  {
    AdvanceWraps(write, cap);
  }

  lemma WriteKeeps(c: Config, s: State)
    requires ValidConfig(c) && Inv(c, s) && Guard(c, s, KWrite)
    ensures Inv(c, ApplySubmitter(c, s, KWrite))
  {
    hide CompletionsHold, SlotsOwned, TagsOwned, DaemonAt, HarvesterAt, StoresStaged, LoadsStaged,
      StoreSound, LoadsSound, EndingsSound, EntriesSound;
  }

  lemma PublishKeeps(c: Config, s: State)
    requires ValidConfig(c) && Inv(c, s) && Guard(c, s, KPublish)
    ensures Inv(c, ApplySubmitter(c, s, KPublish))
  {
    hide CompletionsHold, SlotsOwned, TagsOwned, DaemonAt, HarvesterAt, LoadsStaged, StoreSound,
      LoadsSound, EndingsSound, RequestsHold, StoresStaged;
    var s' := ApplySubmitter(c, s, KPublish);
    var e := s'.g.log[|s.g.log|];
    SlotPublished(c.cap, s.bitmap, s.g.slotUse, s.g.log, Owning(s), e);
    TagPublished(c.depth, s.rqs, s.cmds, s.g.tagUse, s.g.log, |s.g.endings|, e);
    AdvanceWraps(s.reqWrite, c.cap);
    RequestPublished(c.cap, s.requests, s.reqRead, s.g.log, s.g.polled, e);
    StorePublished(c.cap, s.staging, s.g.log, |s.g.outcomes|, e);
    SoundGrows(s.store, s.g.log, e, s.g.outcomes, s.g.endings);
    WindowsGrow(c, s, e);
  }

  lemma BackOutKeeps(c: Config, s: State)
    requires ValidConfig(c) && Inv(c, s) && Guard(c, s, KBackOut)
    ensures Inv(c, ApplySubmitter(c, s, KBackOut))
  {
    hide RequestsHold, CompletionsHold, DaemonAt, StoresStaged, LoadsStaged, StoreSound, LoadsSound,
      EndingsSound, EntriesSound;
  }

  lemma PollKeeps(c: Config, s: State)
    requires ValidConfig(c) && Inv(c, s) && Guard(c, s, DPoll)
    ensures Inv(c, ApplyDaemon(c, s, DPoll))
  {
    hide RequestsHold, CompletionsHold, SlotsOwned, TagsOwned, HandHeld, HandFilled, HandWritten,
      HarvesterAt, StoresStaged, LoadsStaged, StoreSound, LoadsSound, EndingsSound, EntriesSound;
  }

  lemma FetchKeeps(c: Config, s: State)
    requires ValidConfig(c) && Inv(c, s) && Guard(c, s, DFetch)
    ensures Inv(c, ApplyDaemon(c, s, DFetch))
  {
    hide CompletionsHold, SlotsOwned, TagsOwned, HandHeld, HandFilled, HandWritten, HarvesterAt,
      StoresStaged, LoadsStaged, StoreSound, LoadsSound, EndingsSound, EntriesSound;
  }

  lemma CopyInKeeps(c: Config, s: State)
    requires ValidConfig(c) && Inv(c, s) && Guard(c, s, DCopyIn)
    ensures Inv(c, ApplyDaemon(c, s, DCopyIn))
  {
    hide RequestsHold, CompletionsHold, SlotsOwned, TagsOwned, HandHeld, HandFilled, HandWritten,
      HarvesterAt, LoadsStaged, StoreSound, LoadsSound, EndingsSound, EntriesSound;
  }

  lemma StoreKeeps(c: Config, s: State, ok: bool, next: map<nat, Page>)
    requires ValidConfig(c) && Inv(c, s) && Guard(c, s, DStore(ok, next))
    ensures Inv(c, ApplyDaemon(c, s, DStore(ok, next)))
  {
    hide RequestsHold, SlotsOwned, TagsOwned, HandHeld, HandFilled, HandWritten, StoreSound,
      LoadsSound, CompletionsHold, HarvesterAt, EndingsSound, StoresStaged;
    AnswersGrow(c, s, Outcome(ok, []));
    StoreAnswered(s.store, s.g.log, s.g.outcomes, ok, next);
  }

  lemma LoadKeeps(c: Config, s: State, ok: bool)
    requires ValidConfig(c) && Inv(c, s) && Guard(c, s, DLoad(ok))
    ensures Inv(c, ApplyDaemon(c, s, DLoad(ok)))
  {
    hide RequestsHold, SlotsOwned, TagsOwned, HandHeld, HandFilled, HandWritten, StoreSound,
      LoadsSound, CompletionsHold, HarvesterAt, EndingsSound, StoresStaged;
    var answer := ApplyDaemon(c, s, DLoad(ok)).g.outcomes[|s.g.outcomes|];
    AnswersGrow(c, s, answer);
    LoadAnswered(s.store, s.g.log, s.g.outcomes, answer);
  }

  /** The driver sends the daemon nothing but stores and loads. */
  lemma NeverRejects(c: Config, s: State)
    requires Inv(c, s)
    ensures !Guard(c, s, DReject)
  {
    hide RequestsHold, CompletionsHold, SlotsOwned, TagsOwned, HandHeld, HandFilled, HandWritten,
      HarvesterAt, StoresStaged, LoadsStaged, StoreSound, LoadsSound, EndingsSound;
  }

  lemma CopyOutKeeps(c: Config, s: State)
    requires ValidConfig(c) && Inv(c, s) && Guard(c, s, DCopyOut)
    ensures Inv(c, ApplyDaemon(c, s, DCopyOut))
  {
    hide RequestsHold, CompletionsHold, TagsOwned, HandWritten, HarvesterAt, StoreSound, LoadsSound,
      EndingsSound, EntriesSound;
  }

  lemma DaemonAdvanceKeeps(c: Config, s: State)
    requires ValidConfig(c) && Inv(c, s) && Guard(c, s, DAdvance)
    ensures Inv(c, ApplyDaemon(c, s, DAdvance))
  {
    hide CompletionsHold, SlotsOwned, TagsOwned, HandHeld, HandFilled, HarvesterAt, StoresStaged,
      LoadsStaged, StoreSound, LoadsSound, EndingsSound, EntriesSound;
    AdvanceWraps(s.reqRead, c.cap);
  }

  lemma CompleteKeeps(c: Config, s: State)
    requires ValidConfig(c) && Inv(c, s) && Guard(c, s, DWrite)
    requires s.g.completed - s.g.popped + 1 <= c.cap
    ensures Inv(c, ApplyDaemon(c, s, DWrite))
  {
    hide RequestsHold, SlotsOwned, TagsOwned, HandHeld, HandFilled, HandWritten, HarvesterAt,
      StoresStaged, LoadsStaged, StoreSound, LoadsSound, EndingsSound, EntriesSound;
  }

  lemma DaemonPublishKeeps(c: Config, s: State)
    requires ValidConfig(c) && Inv(c, s) && Guard(c, s, DPublish)
    requires s.g.completed - s.g.popped + 1 <= c.cap
    ensures Inv(c, ApplyDaemon(c, s, DPublish))
  {
    hide RequestsHold, SlotsOwned, TagsOwned, HandHeld, HandFilled, HandWritten, StoresStaged,
      LoadsStaged, StoreSound, LoadsSound, EndingsSound, CompletionsHold;
    AdvanceWraps(s.compWrite, c.cap);
    CompletionPublished(c.cap, s.completions, s.compRead, s.g.log, s.g.outcomes, s.g.popped, s.g.completed);
  }

  lemma HarvestPollKeeps(c: Config, s: State)
    requires ValidConfig(c) && Inv(c, s) && Guard(c, s, HPoll)
    ensures Inv(c, ApplyHarvester(c, s, HPoll))
  {
    hide RequestsHold, CompletionsHold, SlotsOwned, TagsOwned, HandHeld, HandFilled, HandWritten,
      DaemonAt, StoresStaged, LoadsStaged, StoreSound, LoadsSound, EndingsSound, EntriesSound;
  }

  lemma HarvestFetchKeeps(c: Config, s: State)
    requires ValidConfig(c) && Inv(c, s) && Guard(c, s, HFetch)
    ensures Inv(c, ApplyHarvester(c, s, HFetch))
  {
    hide RequestsHold, SlotsOwned, TagsOwned, HandHeld, HandFilled, HandWritten, DaemonAt,
      StoresStaged, LoadsStaged, StoreSound, LoadsSound, EndingsSound, EntriesSound;
  }

  lemma HarvestAdvanceKeeps(c: Config, s: State)
    requires ValidConfig(c) && Inv(c, s) && Guard(c, s, HAdvance)
    ensures Inv(c, ApplyHarvester(c, s, HAdvance))
  {
    hide RequestsHold, SlotsOwned, TagsOwned, HandHeld, HandFilled, HandWritten, DaemonAt,
      StoresStaged, LoadsStaged, StoreSound, LoadsSound, EndingsSound, EntriesSound;
    AdvanceWraps(s.compRead, c.cap);
  }

  lemma DeliverKeeps(c: Config, s: State)
    requires ValidConfig(c) && Inv(c, s) && Guard(c, s, HDeliver)
    ensures Inv(c, ApplyHarvester(c, s, HDeliver))
  {
    hide RequestsHold, CompletionsHold, SlotsOwned, TagsOwned, DaemonAt, StoresStaged, StoreSound,
      LoadsSound, EndingsSound, EntriesSound;
    var e := |s.g.endings|;
    var tag := s.h.comp.seqNo - 1;
    TagInFlight(c, s, e);
    var bio := s.rqs[tag].value.(data := s.staging[s.cmds[tag].slot]);
    TagDelivered(c.depth, s.rqs, s.cmds, s.g.tagUse, s.g.log, e, HandTag(s.k), tag, bio);
  }

  lemma FreeKeeps(c: Config, s: State)
    requires ValidConfig(c) && Inv(c, s) && Guard(c, s, HFree)
    ensures Inv(c, ApplyHarvester(c, s, HFree))
  {
    hide RequestsHold, CompletionsHold, HandFilled, HandWritten, DaemonAt, StoresStaged, StoreSound,
      LoadsSound, EndingsSound, SlotsOwned, TagsOwned;
    var e := |s.g.endings|;
    TagInFlight(c, s, e);
    SlotFreed(c.cap, s.bitmap, s.g.slotUse, s.g.log, e, HandSlot(s.k));
  }

  lemma EndKeeps(c: Config, s: State)
    requires ValidConfig(c) && Inv(c, s) && Guard(c, s, HEnd)
    ensures Inv(c, ApplyHarvester(c, s, HEnd))
  {
    hide RequestsHold, CompletionsHold, SlotsOwned, TagsOwned, DaemonAt, StoresStaged, LoadsStaged,
      StoreSound, LoadsSound;
    TagInFlight(c, s, |s.g.endings|);
    TagEnded(c.depth, s.rqs, s.cmds, s.g.tagUse, s.g.log, |s.g.endings|, HandTag(s.k), s.h.tag);
  }

}
