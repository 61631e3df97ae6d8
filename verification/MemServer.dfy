/**
 The memory server's page store under any interleaving of any number of clients.

 An allocation is three atomic steps: load `used`, compare-and-swap it one higher,
 fetch-and-add `next_offset`. A free is two, the removal from the map and the
 decrement of `used`, both under the map's mutex. Stores and loads are one each.

 Clients store to, load and free only offsets they were granted and have not freed;
 the last part is about what happens when they do not.
 */
module MemServer {
  import opened Counting
  import opened Pages

  const WORD: nat := 0x1_0000_0000_0000_0000

  datatype Pc = Loaded(seen: nat) | Reserved | Removed

  /**
   `busy` holds the clients in the middle of a call. The last four fields are
   history: who was granted each offset, which granted offsets were never stored,
   which were freed, and what each client last stored at each offset.
   */
  datatype Server = Server(
    max: nat, used: nat, next: nat, pages: map<nat, Page>, lock: Option<nat>, busy: map<nat, Pc>,
    owner: map<nat, nat>, unstored: set<nat>, freed: set<nat>, last: map<(nat, nat), Page>)

  function Init(max: nat): Server {
    Server(max, 0, 0, map[], None, map[], map[], {}, {}, map[])
  }

  datatype Step =
    | Load(c: nat) | Swap(c: nat) | Grant(c: nat)
    | Store(c: nat, offset: nat, data: Page) | Fetch(c: nat, offset: nat)
    | Remove(c: nat, offset: nat) | Decrement(c: nat)

  /** The discipline of clients: an offset of one's own, not yet freed. */
  predicate Owns(s: Server, c: nat, offset: nat) {
    offset in s.owner && s.owner[offset] == c && offset !in s.freed
  }

  /** The client is at that point of the code, and the mutex is free if it needs it. */
  predicate Enabled(s: Server, step: Step) {
    match step
    case Load(c) => c !in s.busy
    case Swap(c) => c in s.busy && s.busy[c].Loaded?
    case Grant(c) => c in s.busy && s.busy[c].Reserved?
    case Store(c, o, _) => c !in s.busy && s.lock.None?
    case Fetch(c, o) => c !in s.busy && s.lock.None?
    case Remove(c, o) => c !in s.busy && s.lock.None?
    case Decrement(c) => c in s.busy && s.busy[c].Removed?
  }

  predicate Guard(s: Server, step: Step) {
    Enabled(s, step) && (step.Store? || step.Fetch? || step.Remove? ==> Owns(s, step.c, step.offset))
  }

  /** Whether the map takes a page at `offset`: not if that would be one page too many. */
  predicate Accepts(s: Server, offset: nat) {
    !(|s.pages| >= s.max && offset !in s.pages)
  }

  function Apply(s: Server, step: Step): Server
    requires Enabled(s, step)
  {
    match step
    case Load(c) => if s.used >= s.max then s else s.(busy := s.busy[c := Loaded(s.used)])
    case Swap(c) =>
      if s.used == s.busy[c].seen then s.(used := s.used + 1, busy := s.busy[c := Reserved])
      else s.(busy := s.busy - {c})
    case Grant(c) =>
      s.(next := s.next + 1, busy := s.busy - {c},
         owner := s.owner[s.next := c], unstored := s.unstored + {s.next})
    case Store(c, o, data) =>
      if Accepts(s, o) then
        s.(pages := s.pages[o := data], unstored := s.unstored - {o}, last := s.last[(c, o) := data])
      else s
    case Fetch(_, _) => s
    case Remove(c, o) =>
      if o in s.pages then
        s.(pages := s.pages - {o}, lock := Some(c), busy := s.busy[c := Removed],
           freed := s.freed + {o})
      else s.(freed := s.freed + {o})
    case Decrement(c) =>
      s.(used := (s.used + WORD - 1) % WORD, lock := None, busy := s.busy - {c})
  }

  ghost predicate Runs(s: Server, steps: seq<Step>, s': Server)
    decreases |steps|
  {
    if steps == [] then s' == s
    else Guard(s, steps[0]) && Runs(Apply(s, steps[0]), steps[1..], s')
  }

  // ------------------------------------------------------------ the invariant

  function Reserving(busy: map<nat, Pc>): set<nat> {
    set c | c in busy && busy[c].Reserved?
  }

  /** Every unit of `used` is a stored page, an offset granted and never stored, a reservation, or a free half done. */
  predicate Balanced(s: Server) {
    s.used == |s.pages| + |s.unstored| + |Reserving(s.busy)| + if s.lock.Some? then 1 else 0
  }

  /** Granted are exactly the offsets below `next`; each is unstored, stored, or was freed. */
  ghost predicate Granted(owner: map<nat, nat>, next: nat, unstored: set<nat>, pages: map<nat, Page>, freed: set<nat>) {
    && (forall o: nat :: o in owner <==> o < next)
    && unstored <= owner.Keys && pages.Keys <= owner.Keys && freed <= owner.Keys
    && unstored !! pages.Keys
    && (forall o | o in owner :: o in unstored || o in pages || o in freed)
  }

  /** The map holds what the owner of each offset last stored there. */
  predicate Faithful(owner: map<nat, nat>, pages: map<nat, Page>, last: map<(nat, nat), Page>) {
    forall o | o in pages :: o in owner && (owner[o], o) in last && last[(owner[o], o)] == pages[o]
  }

  /** The mutex is held across exactly the half-done free. */
  predicate Locked(lock: Option<nat>, busy: map<nat, Pc>) {
    && (lock.Some? ==> lock.value in busy && busy[lock.value].Removed?)
    && (forall c | c in busy && busy[c].Removed? :: lock == Some(c))
  }

  /** Nothing is both stored and waiting to be, and all of it was granted. */
  predicate Apart(unstored: set<nat>, pages: map<nat, Page>, next: nat) {
    && unstored !! pages.Keys
    && (forall o | o in unstored :: o < next) && (forall o | o in pages :: o < next)
  }

  /** The count is in order and within the limit. */
  predicate Books(s: Server) {
    && s.used <= s.max < WORD
    && (forall c | c in s.busy && s.busy[c].Loaded? :: s.busy[c].seen < s.max)
    && Balanced(s) && Apart(s.unstored, s.pages, s.next) && Locked(s.lock, s.busy)
  }

  ghost predicate Inv(s: Server) {
    && Books(s)
    && Granted(s.owner, s.next, s.unstored, s.pages, s.freed)
    && Faithful(s.owner, s.pages, s.last)
  }

  lemma ReservingPut(busy: map<nat, Pc>, c: nat, pc: Pc)
    requires c in busy ==> !busy[c].Reserved?
    ensures |Reserving(busy[c := pc])| == |Reserving(busy)| + if pc.Reserved? then 1 else 0
  {
    var before, after := Reserving(busy), Reserving(busy[c := pc]);
    if pc.Reserved? {
      assert after == before + {c};
    } else {
      assert after == before;
    }
  }

  lemma ReservingGone(busy: map<nat, Pc>, c: nat)
    requires c in busy
    ensures |Reserving(busy)| == |Reserving(busy - {c})| + if busy[c].Reserved? then 1 else 0
  {
    var before, after := Reserving(busy), Reserving(busy - {c});
    if busy[c].Reserved? {
      assert before == after + {c};
    } else {
      assert before == after;
    }
  }

  lemma InitInv(max: nat)
    requires max < WORD
    ensures Inv(Init(max))
  {
    assert Reserving(map[]) == {};
  }

  // ------------------------------------------------------------ the books, whatever clients do

  /** A store the server takes at an offset that is neither stored nor waiting to be. */
  predicate Stray(s: Server, step: Step) {
    step.Store? && Accepts(s, step.offset) && step.offset !in s.pages && step.offset !in s.unstored
  }

  lemma LoadKeeps(s: Server, c: nat)
    requires Books(s) && Enabled(s, Load(c))
    ensures Books(Apply(s, Load(c)))
  {
    hide Reserving;
    ReservingPut(s.busy, c, Loaded(s.used));
  }

  lemma SwapKeeps(s: Server, c: nat)
    requires Books(s) && Enabled(s, Swap(c))
    ensures Books(Apply(s, Swap(c)))
  {
    if s.used == s.busy[c].seen {
      SwapTakes(s, c);
    } else {
      SwapFails(s, c);
    }
  }

  lemma SwapTakes(s: Server, c: nat)
    requires Books(s) && Enabled(s, Swap(c)) && s.used == s.busy[c].seen
    ensures Books(Apply(s, Swap(c)))
  {
    hide Reserving, Apart;
    ReservingPut(s.busy, c, Reserved);
  }

  lemma SwapFails(s: Server, c: nat)
    requires Books(s) && Enabled(s, Swap(c)) && s.used != s.busy[c].seen
    ensures Books(Apply(s, Swap(c)))
  {
    hide Reserving, Apart;
    ReservingGone(s.busy, c);
  }

  lemma GrantKeeps(s: Server, c: nat)
    requires Books(s) && Enabled(s, Grant(c))
    ensures Books(Apply(s, Grant(c)))
  {
    GrantApart(s.unstored, s.pages, s.next);
    hide Reserving, Apart;
    ReservingGone(s.busy, c);
  }

  lemma GrantApart(unstored: set<nat>, pages: map<nat, Page>, next: nat)
    requires Apart(unstored, pages, next)
    ensures next !in unstored && Apart(unstored + {next}, pages, next + 1)
  {
  }

  lemma StoredMoves(pages: map<nat, Page>, unstored: set<nat>, o: nat, data: Page)
    requires o in unstored <==> o !in pages
    ensures |pages[o := data]| + |unstored - {o}| == |pages| + |unstored|
  {
    if o in pages {
      assert pages[o := data].Keys == pages.Keys && unstored - {o} == unstored;
    } else {
      assert unstored == (unstored - {o}) + {o};
    }
  }

  lemma StoreKeeps(s: Server, c: nat, o: nat, data: Page)
    requires Books(s) && Enabled(s, Store(c, o, data)) && !Stray(s, Store(c, o, data))
    ensures Books(Apply(s, Store(c, o, data)))
  {
    hide Reserving, Locked;
    if Accepts(s, o) {
      assert o in s.unstored <==> o !in s.pages;
      StoredMoves(s.pages, s.unstored, o, data);
    }
  }

  lemma RemoveCounts(s: Server, c: nat, o: nat)
    requires Books(s) && Enabled(s, Remove(c, o))
    ensures Balanced(Apply(s, Remove(c, o)))
  {
    hide Reserving, Locked, Apart;
    if o in s.pages {
      assert s.pages.Keys == (s.pages - {o}).Keys + {o};
      ReservingPut(s.busy, c, Removed);
    }
  }

  lemma RemoveKeeps(s: Server, c: nat, o: nat)
    requires Books(s) && Enabled(s, Remove(c, o))
    ensures Books(Apply(s, Remove(c, o)))
  {
    RemoveCounts(s, c, o);
    hide Balanced;
  }

  lemma DecrementKeeps(s: Server, c: nat)
    requires Books(s) && Enabled(s, Decrement(c))
    ensures Books(Apply(s, Decrement(c))) && Apply(s, Decrement(c)).used == s.used - 1
  {
    hide Reserving, Apart;
    ReservingGone(s.busy, c);
    assert s.used + WORD - 1 == WORD + (s.used - 1);
  }

  /** No step of any client upsets the books, except a stray store. */
  lemma BooksKeep(s: Server, step: Step)
    requires Books(s) && Enabled(s, step) && !Stray(s, step)
    ensures Books(Apply(s, step))
  {
    hide Books, Stray;
    match step
    case Load(c) => LoadKeeps(s, c);
    case Swap(c) => SwapKeeps(s, c);
    case Grant(c) => GrantKeeps(s, c);
    case Store(c, o, data) => StoreKeeps(s, c, o, data);
    case Fetch(_, _) =>
    case Remove(c, o) => RemoveKeeps(s, c, o);
    case Decrement(c) => DecrementKeeps(s, c);
  }

  lemma StrayAdds(pages: map<nat, Page>, unstored: set<nat>, o: nat, data: Page)
    requires o !in pages && o !in unstored
    ensures |pages[o := data]| + |unstored - {o}| == |pages| + |unstored| + 1
  {
    assert unstored - {o} == unstored;
  }

  lemma StrayUpsets(s: Server, c: nat, o: nat, data: Page)
    requires Books(s) && Enabled(s, Store(c, o, data)) && Stray(s, Store(c, o, data))
    ensures !Balanced(Apply(s, Store(c, o, data)))
  {
    hide Reserving, Locked, Apart;
    StrayAdds(s.pages, s.unstored, o, data);
  }

  /** So a step upsets the books if and only if it is one. */
  lemma BalancedIff(s: Server, step: Step)
    requires Books(s) && Enabled(s, step)
    ensures Balanced(Apply(s, step)) <==> !Stray(s, step)
  {
    if Stray(s, step) {
      StrayUpsets(s, step.c, step.offset, step.data);
    } else {
      hide Balanced, Stray;
      BooksKeep(s, step);
    }
  }

  /** Steps of clients that keep no discipline. */
  ghost predicate RunsFreely(s: Server, steps: seq<Step>, s': Server)
    decreases |steps|
  {
    if steps == [] then s' == s
    else Enabled(s, steps[0]) && RunsFreely(Apply(s, steps[0]), steps[1..], s')
  }

  /** None of the steps is a stray store. */
  ghost predicate StrayFree(s: Server, steps: seq<Step>)
    decreases |steps|
  {
    steps != [] && Enabled(s, steps[0]) ==> !Stray(s, steps[0]) && StrayFree(Apply(s, steps[0]), steps[1..])
  }

  /** The books are in order after every step. */
  ghost predicate AlwaysBalanced(s: Server, steps: seq<Step>)
    decreases |steps|
  {
    steps != [] && Enabled(s, steps[0]) ==>
      Balanced(Apply(s, steps[0])) && AlwaysBalanced(Apply(s, steps[0]), steps[1..])
  }

  /**
   Over every interleaving of clients that keep no discipline at all: the books stay in
   order throughout if and only if no step is a stray store, and then the count never
   exceeds the limit either.
   */
  lemma {:induction false} BooksIff(s: Server, steps: seq<Step>, s': Server)
    requires Books(s) && RunsFreely(s, steps, s')
    ensures AlwaysBalanced(s, steps) <==> StrayFree(s, steps)
    ensures StrayFree(s, steps) ==> Books(s') && s'.used <= s'.max
    decreases |steps|
  {
    if steps == [] {
      assert Books(s');
    } else {
      hide Enabled, Apply, Stray, Balanced, Locked, Apart;
      BalancedIff(s, steps[0]);
      if !Stray(s, steps[0]) {
        BooksKeep(s, steps[0]);
        BooksIff(Apply(s, steps[0]), steps[1..], s');
      }
    }
  }

  // ------------------------------------------------------------ disciplined clients

  lemma NextIsNew(s: Server)
    requires Granted(s.owner, s.next, s.unstored, s.pages, s.freed)
    ensures s.next !in s.owner && s.next !in s.unstored && s.next !in s.pages && s.next !in s.freed
  {
  }

  /** A disciplined store is never refused, and never stray. */
  lemma StoreAccepted(s: Server, c: nat, o: nat)
    requires Inv(s) && Owns(s, c, o)
    ensures Accepts(s, o) && (o in s.pages || o in s.unstored)
  {
    if o in s.unstored {
      assert |s.unstored| >= 1;
    }
  }

  lemma OwnersKeep(s: Server, step: Step)
    requires Inv(s) && Guard(s, step)
    ensures var s' := Apply(s, step); Granted(s'.owner, s'.next, s'.unstored, s'.pages, s'.freed)
  {
    hide Books, Faithful, Accepts;
    if step.Grant? {
      assert Apply(s, step).owner.Keys == s.owner.Keys + {s.next};
    }
  }

  lemma PagesKeep(s: Server, step: Step)
    requires Inv(s) && Guard(s, step)
    ensures var s' := Apply(s, step); Faithful(s'.owner, s'.pages, s'.last)
  {
    hide Books, Accepts;
    NextIsNew(s);
    hide Granted;
  }

  lemma StepKeeps(s: Server, step: Step)
    requires Inv(s) && Guard(s, step)
    ensures Inv(Apply(s, step))
  {
    if step.Store? {
      StoreAccepted(s, step.c, step.offset);
    }
    hide Books, Granted, Faithful, Enabled, Apply, Owns, Accepts;
    BooksKeep(s, step);
    OwnersKeep(s, step);
    PagesKeep(s, step);
  }

  // ------------------------------------------------------------ over every interleaving

  /**
   In every interleaving: the server never counts more than `max` pages, and its
   count is stored pages, offsets granted and never stored, and reservations in
   progress, whenever no free is half done.
   */
  lemma {:induction false} Reachable(s: Server, steps: seq<Step>, s': Server)
    requires Inv(s) && Runs(s, steps, s')
    ensures Inv(s') && s'.max == s.max
    ensures s'.lock.None? ==> s'.used == |s'.pages| + |s'.unstored| + |Reserving(s'.busy)| <= s'.max
    ensures s.owner.Keys <= s'.owner.Keys && forall o | o in s.owner :: s'.owner[o] == s.owner[o]
    decreases |steps|
  {
    hide Inv, Enabled, Owns, Apply;
    if steps != [] {
      StepKeeps(s, steps[0]);
      OwnersStay(s, steps[0]);
      Reachable(Apply(s, steps[0]), steps[1..], s');
    } else {
      Bounds(s);
    }
  }

  lemma OwnersStay(s: Server, step: Step)
    requires Inv(s) && Guard(s, step)
    ensures var s' := Apply(s, step);
            s'.max == s.max && s.owner.Keys <= s'.owner.Keys && forall o | o in s.owner :: s'.owner[o] == s.owner[o]
  {
    hide Balanced, Locked;
    assert s.next !in s.owner;
  }

  lemma Bounds(s: Server)
    requires Inv(s)
    ensures s.lock.None? ==> s.used == |s.pages| + |s.unstored| + |Reserving(s.busy)| <= s.max
  {
  }

  /** An offset granted was never granted before, and belongs to the client it is granted to. */
  lemma GrantIsFresh(s: Server, c: nat)
    requires Inv(s) && Guard(s, Grant(c))
    ensures s.next !in s.owner && Owns(Apply(s, Grant(c)), c, s.next)
  {
    NextIsNew(s);
  }

  /** What a client fetches from its own offset is what it last stored there; no step of another client changes that. */
  lemma Isolated(s: Server, c: nat, o: nat, step: Step)
    requires Inv(s) && Owns(s, c, o) && Guard(s, step) && step.c != c
    ensures var s' := Apply(s, step);
            && Owns(s', c, o)
            && (o in s'.pages <==> o in s.pages)
            && (o in s.pages ==> (c, o) in s.last && s'.pages[o] == s.pages[o] == s.last[(c, o)])
  {
    hide Balanced, Locked, Accepts;
    assert s.next !in s.owner;
  }

  /** So whatever the other clients do in between, a client finds its page as it left it. */
  lemma {:induction false} IsolatedRun(s: Server, c: nat, o: nat, steps: seq<Step>, s': Server)
    requires Inv(s) && Owns(s, c, o) && Runs(s, steps, s') && forall step | step in steps :: step.c != c
    ensures Inv(s') && Owns(s', c, o)
    ensures o in s'.pages <==> o in s.pages
    ensures o in s.pages ==> s'.pages[o] == s.pages[o]
    decreases |steps|
  {
    hide Inv, Enabled, Apply, Owns;
    if steps != [] {
      StepKeeps(s, steps[0]);
      Isolated(s, c, o, steps[0]);
      assert forall step | step in steps[1..] :: step in steps;
      IsolatedRun(Apply(s, steps[0]), c, o, steps[1..], s');
    }
  }

  // ------------------------------------------------------------ what a stray store leads to

  lemma PutAndTake<V>(m: map<nat, V>, k: nat, v: V)
    requires k !in m
    ensures m[k := v] - {k} == m
  {
  }

  lemma CountedDown(used: nat)
    requires used < WORD
    ensures (used + WORD - 1) % WORD == if used == 0 then WORD - 1 else used - 1
  {
  }

  /** A stray store, freed again: the page is gone, and the count one lower, round to the largest word from zero. */
  function AfterStray(s: Server, c: nat, o: nat, data: Page): Server {
    s.(used := if s.used == 0 then WORD - 1 else s.used - 1, freed := s.freed + {o}, last := s.last[(c, o) := data])
  }

  lemma StrayPair(s: Server, c: nat, o: nat, data: Page)
    requires Inv(s) && Enabled(s, Store(c, o, data)) && Stray(s, Store(c, o, data))
    ensures RunsFreely(s, [Store(c, o, data), Remove(c, o), Decrement(c)], AfterStray(s, c, o, data))
    ensures !Balanced(AfterStray(s, c, o, data))
  {
    hide Inv, RunsFreely, Balanced, AfterStray, Enabled, Apply;
    var s1, s2 := StraySteps(s, c, o, data);
    StrayUnbalanced(s, c, o, data);
    Single(s, Store(c, o, data));
    Extend(s, [Store(c, o, data)], s1, Remove(c, o));
    assert [Store(c, o, data)] + [Remove(c, o)] == [Store(c, o, data), Remove(c, o)];
    Extend(s, [Store(c, o, data), Remove(c, o)], s2, Decrement(c));
    assert [Store(c, o, data), Remove(c, o)] + [Decrement(c)] == [Store(c, o, data), Remove(c, o), Decrement(c)];
  }

  lemma StrayUnbalanced(s: Server, c: nat, o: nat, data: Page)
    requires Inv(s) && s.lock.None?
    ensures !Balanced(AfterStray(s, c, o, data))
  {
    hide Granted, Faithful, Locked, Reserving;
  }

  lemma StraySteps(s: Server, c: nat, o: nat, data: Page) returns (s1: Server, s2: Server)
    requires Inv(s) && Enabled(s, Store(c, o, data)) && Stray(s, Store(c, o, data))
    ensures s.lock.None? && s1 == Apply(s, Store(c, o, data))
    ensures Enabled(s1, Remove(c, o)) && s2 == Apply(s1, Remove(c, o))
    ensures Enabled(s2, Decrement(c)) && AfterStray(s, c, o, data) == Apply(s2, Decrement(c))
  {
    CountIsWord(s);
    hide Inv, Stray;
    s1 := StrayStored(s, c, o, data);
    s2 := StrayFreed(s, c, o, data, s1);
    hide Apply;
    StrayCounted(s, c, s2);
  }

  lemma StrayCounted(s: Server, c: nat, s2: Server)
    requires s.used < WORD && c !in s.busy && s.lock.None?
    requires s2 == s.(lock := Some(c), busy := s.busy[c := Removed], freed := s2.freed, last := s2.last)
    ensures Enabled(s2, Decrement(c))
    ensures Apply(s2, Decrement(c))
         == s.(used := if s.used == 0 then WORD - 1 else s.used - 1, freed := s2.freed, last := s2.last)
  {
    CountedDown(s2.used);
    PutAndTake(s.busy, c, Removed);
  }

  lemma StrayStored(s: Server, c: nat, o: nat, data: Page) returns (s1: Server)
    requires Enabled(s, Store(c, o, data)) && Stray(s, Store(c, o, data))
    ensures s1 == Apply(s, Store(c, o, data)) == s.(pages := s.pages[o := data], last := s.last[(c, o) := data])
    ensures o !in s.pages
  {
    assert s.unstored - {o} == s.unstored;
    s1 := Apply(s, Store(c, o, data));
  }

  lemma StrayFreed(s: Server, c: nat, o: nat, data: Page, s1: Server) returns (s2: Server)
    requires o !in s.pages && c !in s.busy && s.lock.None?
    requires s1 == s.(pages := s.pages[o := data], last := s1.last)
    ensures Enabled(s1, Remove(c, o)) && s2 == Apply(s1, Remove(c, o))
    ensures s2 == s.(lock := Some(c), busy := s.busy[c := Removed], freed := s.freed + {o}, last := s1.last)
  {
    PutAndTake(s.pages, o, data);
    s2 := Apply(s1, Remove(c, o));
  }

  lemma CountIsWord(s: Server)
    requires Inv(s)
    ensures s.used <= s.max < WORD
  {
  }

  lemma Single(s: Server, step: Step)
    requires Enabled(s, step)
    ensures RunsFreely(s, [step], Apply(s, step))
  {
    assert [step][1..] == [];
  }

  /** A server that can grant nothing more to disciplined clients: its count is at the limit and nobody owns anything. */
  predicate Dead(s: Server) {
    && s.used >= s.max && s.lock.None?
    && (forall c | c in s.busy :: s.busy[c].Loaded? && s.busy[c].seen < s.max)
    && (forall o | o in s.owner :: o in s.freed)
  }

  lemma {:induction false} StaysDead(s: Server, steps: seq<Step>, s': Server)
    requires Dead(s) && Runs(s, steps, s')
    ensures Dead(s') && s'.used == s.used && s'.owner == s.owner && s'.pages == s.pages
    decreases |steps|
  {
    if steps != [] {
      StaysDead(Apply(s, steps[0]), steps[1..], s');
    }
  }

  /**
   On a server that counts nothing, one stray store and free wraps the count to the
   largest word, and from then on, in every interleaving of disciplined clients, no
   offset is granted again.
   */
  lemma UndisciplinedUnderflow(s: Server, c: nat, o: nat, data: Page, steps: seq<Step>, t: Server)
    requires Inv(s) && s.used == 0 && Enabled(s, Store(c, o, data)) && Stray(s, Store(c, o, data))
    ensures RunsFreely(s, [Store(c, o, data), Remove(c, o), Decrement(c)], AfterStray(s, c, o, data))
    ensures Runs(AfterStray(s, c, o, data), steps, t) ==> t.used == WORD - 1 && t.owner == s.owner
  {
    hide RunsFreely;
    StrayPair(s, c, o, data);
    NothingCounted(s);
    if Runs(AfterStray(s, c, o, data), steps, t) {
      StaysDead(AfterStray(s, c, o, data), steps, t);
    }
  }

  lemma NothingCounted(s: Server)
    requires Inv(s) && s.used == 0
    ensures s.pages == map[] && s.unstored == {} && s.lock.None?
    ensures forall c | c in s.busy :: s.busy[c].Loaded? && s.busy[c].seen < s.max
    ensures forall o | o in s.owner :: o in s.freed
  {
    assert |s.pages| == 0 && |s.unstored| == 0 && |Reserving(s.busy)| == 0;
    assert Reserving(s.busy) == {};
    forall c | c in s.busy ensures s.busy[c].Loaded? {
      assert c !in Reserving(s.busy);
    }
  }

  lemma FullCount(s: Server)
    requires Inv(s) && s.lock.None?
    ensures |s.pages| + |s.unstored| + |Reserving(s.busy)| == s.used && s.next !in s.unstored
  {
    NextIsNew(s);
  }

  /** An allocation nobody comes between. */
  lemma GrantAlone(s: Server, c: nat) returns (s1: Server, s2: Server, s3: Server)
    requires c !in s.busy && s.used < s.max
    ensures Enabled(s, Load(c)) && s1 == Apply(s, Load(c))
    ensures Enabled(s1, Swap(c)) && s2 == Apply(s1, Swap(c))
    ensures Enabled(s2, Grant(c)) && s3 == Apply(s2, Grant(c))
    ensures s3 == s.(used := s.used + 1, next := s.next + 1, owner := s.owner[s.next := c], unstored := s.unstored + {s.next})
  {
    s1 := s.(busy := s.busy[c := Loaded(s.used)]);
    s2 := s.(used := s.used + 1, busy := s.busy[c := Reserved]);
    assert s1.busy[c := Reserved] == s2.busy;
    s3 := s.(used := s.used + 1, next := s.next + 1, owner := s.owner[s.next := c], unstored := s.unstored + {s.next});
    assert s2.busy - {c} == s.busy;
  }

  lemma GrantFreely(s: Server, steps: seq<Step>, m: Server, c: nat) returns (s': Server)
    requires RunsFreely(s, steps, m) && c !in m.busy && m.used < m.max
    ensures RunsFreely(s, steps + [Load(c), Swap(c), Grant(c)], s')
    ensures s' == m.(used := m.used + 1, next := m.next + 1, owner := m.owner[m.next := c], unstored := m.unstored + {m.next})
  {
    hide RunsFreely, Enabled, Apply;
    var s1, s2;
    s1, s2, s' := GrantAlone(m, c);
    Extend(s, steps, m, Load(c));
    Extend(s, steps + [Load(c)], s1, Swap(c));
    Extend(s, steps + [Load(c)] + [Swap(c)], s2, Grant(c));
    assert steps + [Load(c)] + [Swap(c)] + [Grant(c)] == steps + [Load(c), Swap(c), Grant(c)];
  }

  /** On a full server one stray store and free makes room for one page too many. */
  lemma UndisciplinedOvercommit(s: Server, c: nat, o: nat, data: Page, d: nat) returns (s': Server)
    requires Inv(s) && s.used == s.max > 0 && d !in s.busy
    requires Enabled(s, Store(c, o, data)) && Stray(s, Store(c, o, data))
    ensures RunsFreely(s, [Store(c, o, data), Remove(c, o), Decrement(c)] + [Load(d), Swap(d), Grant(d)], s')
    ensures |s'.pages| + |s'.unstored| + |Reserving(s'.busy)| == s'.max + 1
  {
    StrayPair(s, c, o, data);
    FullCount(s);
    hide Inv, RunsFreely, Reserving, Stray, Enabled, Apply;
    s' := GrantFreely(s, [Store(c, o, data), Remove(c, o), Decrement(c)], AfterStray(s, c, o, data), d);
  }

  lemma {:induction false} Extend(s: Server, steps: seq<Step>, m: Server, step: Step)
    requires RunsFreely(s, steps, m) && Enabled(m, step)
    ensures RunsFreely(s, steps + [step], Apply(m, step))
    decreases |steps|
  {
    hide Enabled, Apply;
    if steps == [] {
      assert ([] + [step])[1..] == [];
    } else {
      Extend(Apply(s, steps[0]), steps[1..], m, step);
      assert (steps + [step])[1..] == steps[1..] + [step];
    }
  }

  /** Whatever clients do, stray stores included, the map never holds more pages than the limit. */
  lemma {:induction false} PagesBounded(s: Server, steps: seq<Step>, s': Server)
    requires |s.pages| <= s.max && RunsFreely(s, steps, s')
    ensures |s'.pages| <= s'.max == s.max
    decreases |steps|
  {
    if steps != [] {
      BoundedStep(s, steps[0]);
      hide Apply, Enabled;
      PagesBounded(Apply(s, steps[0]), steps[1..], s');
    }
  }

  lemma BoundedStep(s: Server, step: Step)
    requires |s.pages| <= s.max && Enabled(s, step)
    ensures var s' := Apply(s, step); |s'.pages| <= s'.max == s.max
  {
    match step
    case Store(c, o, data) => StoreBounded(s, c, o, data);
    case Remove(c, o) => DropSize(s.pages, o);
    case Load(_) => case Swap(_) => case Grant(_) => case Fetch(_, _) => case Decrement(_) =>
  }

  lemma StoreBounded(s: Server, c: nat, o: nat, data: Page)
    requires |s.pages| <= s.max && Enabled(s, Store(c, o, data))
    ensures var s' := Apply(s, Store(c, o, data)); |s'.pages| <= s'.max == s.max
  {
    PutSize(s.pages, o, data);
  }

  lemma PutSize(pages: map<nat, Page>, o: nat, data: Page)
    ensures |pages[o := data]| == |pages| + if o in pages then 0 else 1
  {
    assert pages[o := data].Keys == pages.Keys + {o};
    assert |pages[o := data].Keys| == |pages[o := data]| && |pages.Keys| == |pages|;
  }

  lemma DropSize(pages: map<nat, Page>, o: nat)
    ensures |pages - {o}| <= |pages|
  {
    SubsetCount((pages - {o}).Keys, pages.Keys);
    assert |(pages - {o}).Keys| == |pages - {o}| && |pages.Keys| == |pages|;
  }

  // ------------------------------------------------------------ offsets freed before they were stored

  /** Offsets given back without ever having been stored: a free of a missing page takes nothing off the count. */
  function Leaked(s: Server): set<nat> {
    s.unstored * s.freed
  }

  /** They stay counted for ever. */
  lemma {:induction false} LeaksStay(s: Server, steps: seq<Step>, s': Server)
    requires Inv(s) && Runs(s, steps, s')
    ensures Leaked(s) <= Leaked(s')
    decreases |steps|
  {
    hide Inv, Enabled, Apply, Owns;
    if steps != [] {
      StepKeeps(s, steps[0]);
      LeakStep(s, steps[0]);
      LeaksStay(Apply(s, steps[0]), steps[1..], s');
    }
  }

  lemma LeakStep(s: Server, step: Step)
    requires Guard(s, step)
    ensures Leaked(s) <= Leaked(Apply(s, step))
  {
  }

  lemma LeakedIsDead(s: Server)
    requires Inv(s) && |Leaked(s)| >= s.max
    ensures Dead(s)
  {
    hide Faithful, Accepts;
    SubsetCount(Leaked(s), s.unstored);
    assert |s.pages| == 0 && |Reserving(s.busy)| == 0;
    assert Reserving(s.busy) == {} && s.pages == map[];
    forall c | c in s.busy ensures s.busy[c].Loaded? {
      assert c !in Reserving(s.busy);
    }
  }

  /** Once as many have leaked as the server may hold, no disciplined client is granted anything again. */
  lemma LeakedServer(s: Server, steps: seq<Step>, s': Server)
    requires Inv(s) && |Leaked(s)| >= s.max && Runs(s, steps, s')
    ensures s'.owner == s.owner && s'.pages == map[]
  {
    LeakedIsDead(s);
    hide Inv, Runs;
    StaysDead(s, steps, s');
    NoPages(s);
  }

  lemma NoPages(s: Server)
    requires Inv(s) && |Leaked(s)| >= s.max
    ensures s.pages == map[]
  {
    hide Faithful, Locked, Granted, Reserving;
    SubsetCount(Leaked(s), s.unstored);
    assert |s.pages| == 0;
  }

  lemma LeakOne(s: Server, s3: Server, c: nat)
    requires s.busy == map[] && s.lock.None? && s.next !in s.freed && s.next !in s.unstored && s.next !in s.pages
    requires s3 == s.(used := s.used + 1, next := s.next + 1, owner := s.owner[s.next := c], unstored := s.unstored + {s.next})
    ensures Guard(s3, Remove(c, s.next)) && s.next !in Leaked(s)
    ensures Apply(s3, Remove(c, s.next)) == s3.(freed := s.freed + {s.next})
    ensures Leaked(Apply(s3, Remove(c, s.next))) == Leaked(s) + {s.next}
  {
    assert (s.unstored + {s.next}) * (s.freed + {s.next}) == s.unstored * s.freed + {s.next};
  }

  lemma NextNotTaken(s: Server)
    requires Inv(s)
    ensures s.next !in s.freed && s.next !in s.unstored && s.next !in s.pages
  {
    NextIsNew(s);
  }

  lemma NoLock(s: Server)
    requires Inv(s) && s.busy == map[]
    ensures s.lock.None?
  {
  }

  /** It comes to that: clients that allocate and give back without storing leak the whole server. */
  lemma {:induction false} LeakRun(max: nat, n: nat) returns (steps: seq<Step>, s: Server)
    requires n <= max < WORD
    ensures Runs(Init(max), steps, s) && Inv(s) && s.busy == map[] && s.max == max && s.used == n && |Leaked(s)| == n
  {
    if n == 0 {
      steps, s := [], Init(max);
      InitInv(max);
    } else {
      var before, m := LeakRun(max, n - 1);
      hide Inv, Enabled, Apply, Owns, Leaked, Runs;
      assert m.next !in m.freed && m.next !in m.unstored && m.next !in m.pages && m.lock.None? by {
        NextNotTaken(m);
        NoLock(m);
      }
      var s3 := GrantRun(Init(max), before, m, 0);
      LeakOne(m, s3, 0);
      s := Apply(s3, Remove(0, m.next));
      steps := before + [Load(0)] + [Swap(0)] + [Grant(0)] + [Remove(0, m.next)];
      RunsOn(Init(max), before + [Load(0)] + [Swap(0)] + [Grant(0)], s3, Remove(0, m.next));
      StepKeeps(s3, Remove(0, m.next));
    }
  }

  lemma GrantRun(s: Server, steps: seq<Step>, m: Server, c: nat) returns (s3: Server)
    requires Runs(s, steps, m) && Inv(m) && c !in m.busy && m.used < m.max
    ensures Runs(s, steps + [Load(c)] + [Swap(c)] + [Grant(c)], s3) && Inv(s3)
    ensures s3 == m.(used := m.used + 1, next := m.next + 1, owner := m.owner[m.next := c], unstored := m.unstored + {m.next})
  {
    hide Inv, Enabled, Apply, Owns, Runs;
    var s1, s2;
    s1, s2, s3 := GrantAlone(m, c);
    RunsOn(s, steps, m, Load(c));
    RunsOn(s, steps + [Load(c)], s1, Swap(c));
    RunsOn(s, steps + [Load(c)] + [Swap(c)], s2, Grant(c));
    StepKeeps(m, Load(c));
    StepKeeps(s1, Swap(c));
    StepKeeps(s2, Grant(c));
  }

  lemma {:induction false} RunsOn(s: Server, steps: seq<Step>, m: Server, step: Step)
    requires Runs(s, steps, m) && Guard(m, step)
    ensures Runs(s, steps + [step], Apply(m, step))
    decreases |steps|
  {
    hide Enabled, Owns, Apply;
    if steps == [] {
      assert ([] + [step])[1..] == [];
    } else {
      RunsOn(Apply(s, steps[0]), steps[1..], m, step);
      assert (steps + [step])[1..] == steps[1..] + [step];
    }
  }
}
