/**
 RDMA slabs. The server carves its registered buffer into one slab per connection;
 a client turns a counter into page handles and a handle into an address in its slab.
 Nothing but this arithmetic keeps one client's transfers out of another's memory.
 */
module Rdma {
  import opened Counting
  import opened Pages

  const WORD: nat := 0x1_0000_0000_0000_0000

  /** Page counts and the address of the registered buffer. */
  datatype Config = Config(base: nat, max: nat, perClient: nat)

  /** `[addr, addr + size)`, as the server tells it to the client. */
  datatype Slab = Slab(addr: nat, size: nat)

  predicate Disjoint(a: Slab, b: Slab) {
    a.addr + a.size <= b.addr || b.addr + b.size <= a.addr
  }

  predicate Inside(a: Slab, b: Slab) {
    b.addr <= a.addr && a.addr + a.size <= b.addr + b.size
  }

  function Buffer(c: Config): Slab {
    Slab(c.base, c.max * PAGE_SIZE)
  }

  /** The buffer is mapped: it starts above zero and ends before addresses wrap. */
  predicate Mapped(c: Config) {
    0 < c.base && c.base + c.max * PAGE_SIZE < WORD
  }

  // ------------------------------------------------------------ the server

  /** `issued` is history: every slab an accepted connection was ever told. */
  datatype Server = Server(next: nat, live: map<nat, Slab>, issued: seq<Slab>)

  /** A connection request and whether the rest of its setup succeeds, or a disconnection. */
  datatype Event = Connect(id: nat, ready: bool) | Disconnect(id: nat)

  /** 64-bit address and size arithmetic wraps. */
  function SlabAt(c: Config, offset: nat): Slab {
    Slab((c.base + offset * PAGE_SIZE) % WORD, c.perClient * PAGE_SIZE % WORD)
  }

  /** The counter moves on even for a refused connection; 64-bit additions wrap. */
  function Handle(c: Config, s: Server, e: Event): Server {
    match e
    case Disconnect(id) => s.(live := s.live - {id})
    case Connect(id, ready) =>
      var end := (s.next + c.perClient) % WORD;
      if end > c.max || !ready then s.(next := end)
      else
        var slab := SlabAt(c, s.next);
        Server(end, s.live[id := slab], s.issued + [slab])
  }

  function HandleAll(c: Config, es: seq<Event>): Server {
    if es == [] then Server(0, map[], []) else Handle(c, HandleAll(c, es[..|es| - 1]), es[|es| - 1])
  }

  class RdmaServer {
    const config: Config
    var next: nat
    var live: map<nat, Slab>
    ghost var issued: seq<Slab>

    constructor (config: Config)
      ensures this.config == config && View() == HandleAll(config, [])
    {
      this.config, next, live, issued := config, 0, map[], [];
    }

    ghost function View(): Server
      reads this
    {
      Server(next, live, issued)
    }

    method HandleConnect(id: nat, ready: bool) returns (r: Option<Slab>)
      modifies this
      ensures View() == Handle(config, old(View()), Connect(id, ready))
      ensures r.Some? ==> issued == old(issued) + [r.value]
      ensures r.None? ==> issued == old(issued) && live == old(live)
      ensures old(next) + config.perClient < WORD ==> (r.Some? <==> ready && old(next) + config.perClient <= config.max)
    {
      var offset := next;
      next := (next + config.perClient) % WORD;
      if (offset + config.perClient) % WORD > config.max || !ready {
        return None;
      }
      var slab := Slab((config.base + offset * PAGE_SIZE) % WORD, config.perClient * PAGE_SIZE % WORD);
      live := live[id := slab];
      issued := issued + [slab];
      r := Some(slab);
    }

    method HandleDisconnect(id: nat)
      modifies this
      ensures View() == Handle(config, old(View()), Disconnect(id))
    {
      live := live - {id};
    }
  }

  /** Slabs ascend: each ends before the next one starts, and all end before the counter and inside the buffer. */
  predicate Ascending(c: Config, s: Server) {
    && (forall i | 0 <= i < |s.issued| ::
         && Inside(s.issued[i], Buffer(c)) && s.issued[i].size == c.perClient * PAGE_SIZE
         && s.issued[i].addr + s.issued[i].size <= c.base + s.next * PAGE_SIZE)
    && (forall i, j | 0 <= i < j < |s.issued| :: s.issued[i].addr + s.issued[i].size <= s.issued[j].addr)
    && (forall id | id in s.live :: s.live[id] in s.issued)
  }

  /** Where nothing wraps. */
  lemma SlabWithin(c: Config, offset: nat)
    requires Mapped(c) && offset + c.perClient <= c.max
    ensures SlabAt(c, offset) == Slab(c.base + offset * PAGE_SIZE, c.perClient * PAGE_SIZE)
    ensures Inside(SlabAt(c, offset), Buffer(c))
  {
  }

  lemma ConnectAscends(c: Config, s: Server, e: Event)
    requires Mapped(c) && Ascending(c, s) && s.next + c.perClient < WORD
    ensures Ascending(c, Handle(c, s, e))
    ensures Handle(c, s, e).next == s.next + if e.Connect? then c.perClient else 0
  {
    assert (s.next + c.perClient) % WORD == s.next + c.perClient;
    if s.next + c.perClient <= c.max {
      SlabWithin(c, s.next);
    }
    hide SlabAt;
  }

  function Requests(es: seq<Event>): nat {
    if es == [] then 0 else Requests(es[..|es| - 1]) + if es[|es| - 1].Connect? then 1 else 0
  }

  lemma {:induction false} RunAscends(c: Config, es: seq<Event>)
    requires Mapped(c) && Requests(es) * c.perClient < WORD
    ensures Ascending(c, HandleAll(c, es)) && HandleAll(c, es).next == Requests(es) * c.perClient
    decreases |es|
  {
    if es != [] {
      hide Ascending, Handle;
      var n := |es| - 1;
      var r := Requests(es[..n]);
      assert (r + 1) * c.perClient == r * c.perClient + c.perClient;
      RunAscends(c, es[..n]);
      var s := HandleAll(c, es[..n]);
      if es[n].Connect? {
        ConnectAscends(c, s, es[n]);
      } else {
        DisconnectAscends(c, s, es[n]);
      }
    }
  }

  lemma DisconnectAscends(c: Config, s: Server, e: Event)
    requires Ascending(c, s) && e.Disconnect?
    ensures Ascending(c, Handle(c, s, e)) && Handle(c, s, e).next == s.next
  {
  }

  /**
   Over any sequence of connections and disconnections that does not wrap the counter,
   no slab is issued twice, no two overlap, and all lie in the registered buffer.
   */
  lemma SlabsDisjoint(c: Config, es: seq<Event>, i: nat, j: nat)
    requires Mapped(c) && Requests(es) * c.perClient < WORD
    requires i < |HandleAll(c, es).issued| && j < |HandleAll(c, es).issued|
    ensures var issued := HandleAll(c, es).issued;
      && Inside(issued[i], Buffer(c))
      && (i != j ==> Disjoint(issued[i], issued[j]))
      && (i != j && c.perClient > 0 ==> issued[i] != issued[j])
  {
    hide HandleAll, Handle;
    RunAscends(c, es);
  }

  // ------------------------------------------------------------ exactly when the counter wraps

  /** `n` connection requests in a row, each set up. */
  function Burst(n: nat): (es: seq<Event>)
    ensures |es| == n && forall e | e in es :: e.Connect?
  {
    if n == 0 then [] else Burst(n - 1) + [Connect(n - 1, true)]
  }

  lemma {:induction false} BurstRequests(n: nat)
    ensures Requests(Burst(n)) == n
  {
    if n != 0 {
      BurstRequests(n - 1);
      assert Burst(n)[..n - 1] == Burst(n - 1);
    }
  }

  lemma BurstStep(c: Config, n: nat)
    ensures HandleAll(c, Burst(n + 1)) == Handle(c, HandleAll(c, Burst(n)), Connect(n, true))
  {
    assert Burst(n + 1)[..n] == Burst(n);
  }

  lemma {:induction false} IssuedStays(c: Config, n: nat, m: nat, i: nat)
    requires n <= m && i < |HandleAll(c, Burst(n)).issued|
    ensures i < |HandleAll(c, Burst(m)).issued| && HandleAll(c, Burst(m)).issued[i] == HandleAll(c, Burst(n)).issued[i]
    decreases m - n
  {
    if n < m {
      BurstStep(c, n);
      IssuedStays(c, n + 1, m, i);
    }
  }

  /** The last request before the counter wraps, among `n` that wrap it. */
  lemma {:induction false} Wraps(p: nat, n: nat) returns (k: nat)
    requires 0 < p < WORD && n * p >= WORD
    ensures k < n && k * p < WORD <= (k + 1) * p
    decreases n
  {
    var m := n - 1;
    assert n * p == m * p + p;
    if m * p < WORD {
      k := m;
    } else {
      k := Wraps(p, m);
    }
  }

  predicate SlabsInside(c: Config, issued: seq<Slab>) {
    forall i | 0 <= i < |issued| :: Inside(issued[i], Buffer(c))
  }

  predicate AllInside(c: Config, es: seq<Event>) {
    SlabsInside(c, HandleAll(c, es).issued)
  }

  /**
   A slab whose request wraps the counter lies outside the buffer. With room below the buffer
   it starts there, and runs on into the buffer's first pages.
   */
  lemma SlabEscapes(c: Config, offset: nat)
    requires Mapped(c) && 0 < c.perClient <= c.max && offset < WORD <= offset + c.perClient
    ensures var slab, gap := SlabAt(c, offset), (WORD - offset) * PAGE_SIZE;
      && !Inside(slab, Buffer(c))
      && (gap <= c.base ==> slab == Slab(c.base - gap, c.perClient * PAGE_SIZE))
  {
    var gap := (WORD - offset) * PAGE_SIZE;
    assert c.base + offset * PAGE_SIZE == c.base - gap + PAGE_SIZE * WORD;
    if gap <= c.base {
      Congruent(c.base + offset * PAGE_SIZE, c.base - gap, PAGE_SIZE);
    } else {
      Congruent(c.base + offset * PAGE_SIZE, WORD + c.base - gap, PAGE_SIZE - 1);
    }
  }

  lemma Congruent(x: nat, r: nat, n: nat)
    requires x == r + n * WORD && r < WORD
    ensures x % WORD == r
  {
  }

  /** The request that wraps the counter is accepted, with a slab that starts outside the buffer and runs into the first client's. */
  lemma WrapEscapes(c: Config, k: nat)
    requires Mapped(c) && 0 < c.perClient <= c.max && k * c.perClient < WORD <= (k + 1) * c.perClient
    ensures var issued := HandleAll(c, Burst(k + 1)).issued;
      && |issued| > 1 && !Inside(issued[|issued| - 1], Buffer(c))
      && ((WORD - k * c.perClient) * PAGE_SIZE <= c.base && (k + 1) * c.perClient != WORD ==>
            issued[|issued| - 1].addr < c.base && !Disjoint(issued[|issued| - 1], issued[0]))
  {
    hide HandleAll, Ascending, SlabAt, Inside;
    BurstRequests(k);
    RunAscends(c, Burst(k));
    BurstStep(c, k);
    var next := k * c.perClient;
    assert (k + 1) * c.perClient == next + c.perClient;
    assert (next + c.perClient) % WORD == next + c.perClient - WORD;
    SlabEscapes(c, next);
    FirstSlab(c, k);
  }

  lemma FirstSlab(c: Config, k: nat)
    requires Mapped(c) && 0 < c.perClient <= c.max && 0 < k
    ensures var issued := HandleAll(c, Burst(k)).issued;
      issued != [] && issued[0] == Slab(c.base, c.perClient * PAGE_SIZE)
  {
    hide SlabAt;
    SlabWithin(c, 0);
    BurstStep(c, 0);
    assert HandleAll(c, Burst(0)) == Server(0, map[], []);
    IssuedStays(c, 1, k, 0);
  }

  /**
   Exactly how many requests the arithmetic survives: the slabs of `n` requests, all set
   up, lie in the buffer if and only if the counter has not wrapped.
   */
  lemma SafeIff(c: Config, n: nat)
    requires Mapped(c) && 0 < c.perClient <= c.max
    ensures AllInside(c, Burst(n)) <==> n * c.perClient < WORD
  {
    hide HandleAll, Ascending, Inside;
    BurstRequests(n);
    if n * c.perClient < WORD {
      forall i | 0 <= i < |HandleAll(c, Burst(n)).issued| ensures Inside(HandleAll(c, Burst(n)).issued[i], Buffer(c)) {
        SlabsDisjoint(c, Burst(n), i, i);
      }
    } else {
      var k := Wraps(c.perClient, n);
      WrapEscapes(c, k);
      IssuedStays(c, k + 1, n, |HandleAll(c, Burst(k + 1)).issued| - 1);
    }
  }

  // ------------------------------------------------------------ who is accepted

  /** Request `k` is set up and finds room: those before it, accepted or not, and it fit into the buffer. */
  predicate Accepted(c: Config, es: seq<Event>, k: nat)
    requires k < |es|
  {
    es[k].Connect? && es[k].ready && (Requests(es[..k]) + 1) * c.perClient <= c.max
  }

  lemma {:induction false} RequestsGrow(es: seq<Event>, k: nat)
    requires k <= |es|
    ensures Requests(es[..k]) <= Requests(es)
    ensures k < |es| && es[k].Connect? ==> Requests(es[..k]) + 1 <= Requests(es)
    decreases |es|
  {
    var n := |es| - 1;
    if k == |es| {
      assert es[..k] == es;
    } else {
      assert es[..n][..k] == es[..k];
      if k < n {
        RequestsGrow(es[..n], k);
      }
    }
  }

  /** As long as the counter does not wrap, exactly the requests that find room are issued a slab, the next one. */
  lemma AcceptedIff(c: Config, es: seq<Event>, k: nat)
    requires Requests(es) * c.perClient < WORD && k < |es|
    ensures var issued, offset := HandleAll(c, es[..k]).issued, Requests(es[..k]) * c.perClient;
      HandleAll(c, es[..k + 1]).issued == if Accepted(c, es, k) then issued + [SlabAt(c, offset)] else issued
    ensures var live, offset := HandleAll(c, es[..k]).live, Requests(es[..k]) * c.perClient;
      HandleAll(c, es[..k + 1]).live ==
        if Accepted(c, es, k) then live[es[k].id := SlabAt(c, offset)]
        else if es[k].Disconnect? then live - {es[k].id} else live
  {
    assert es[..k + 1][..k] == es[..k] && es[..k + 1][k] == es[k];
    hide SlabAt, Handle;
    RequestsGrow(es, k);
    var r, p := Requests(es[..k]), c.perClient;
    MulOrder(r, Requests(es), p);
    if es[k].Connect? { MulOrder(r + 1, Requests(es), p); }
    NextExact(c, es[..k]);
    hide Requests;
    Handled(c, HandleAll(c, es[..k]), es[k], r);
  }

  lemma Handled(c: Config, s: Server, e: Event, r: nat)
    requires s.next == r * c.perClient && (e.Connect? ==> (r + 1) * c.perClient < WORD)
    ensures var s', slab := Handle(c, s, e), SlabAt(c, s.next);
      if e.Connect? && e.ready && (r + 1) * c.perClient <= c.max then
        s'.issued == s.issued + [slab] && s'.live == s.live[e.id := slab]
      else s'.issued == s.issued && s'.live == if e.Disconnect? then s.live - {e.id} else s.live
  {
    hide SlabAt;
    assert (r + 1) * c.perClient == s.next + c.perClient;
  }

  lemma MulOrder(x: nat, y: nat, p: nat)
    requires x <= y
    ensures x * p <= y * p
  {
    assert (y - x) * p >= 0;
  }

  lemma {:induction false} NextExact(c: Config, es: seq<Event>)
    requires Requests(es) * c.perClient < WORD
    ensures HandleAll(c, es).next == Requests(es) * c.perClient
    decreases |es|
  {
    if es != [] {
      var n := |es| - 1;
      var r := Requests(es[..n]);
      assert (r + 1) * c.perClient == r * c.perClient + c.perClient;
      NextExact(c, es[..n]);
    }
  }

  /** Of `n` requests in a row as many are accepted as slabs fit into the buffer. */
  lemma {:induction false} BurstIssued(c: Config, n: nat)
    requires 0 < c.perClient && n * c.perClient < WORD
    ensures |HandleAll(c, Burst(n)).issued| == if n <= c.max / c.perClient then n else c.max / c.perClient
  {
    if n != 0 {
      var m, p := n - 1, c.perClient;
      assert n * p == m * p + p;
      BurstIssued(c, m);
      BurstRequests(n);
      BurstRequests(m);
      assert Burst(n)[..m] == Burst(m) && Burst(n)[..m + 1] == Burst(n);
      AcceptedIff(c, Burst(n), m);
      FitsIff(n, p, c.max);
    }
  }

  lemma FitsIff(n: nat, p: nat, max: nat)
    requires 0 < p
    ensures n * p <= max <==> n <= max / p
  {
    var q := max / p;
    assert max == q * p + max % p;
    if n <= q { MulOrder(n, q, p); } else { MulOrder(q + 1, n, p); assert (q + 1) * p == q * p + p; }
  }

  /** Request `k` is the last accepted one under this id, and it has not been disconnected since. */
  predicate StillOn(c: Config, es: seq<Event>, id: nat, k: nat) {
    && k < |es| && Accepted(c, es, k) && es[k].id == id
    && forall l | k < l < |es| :: es[l] != Disconnect(id) && !(Accepted(c, es, l) && es[l].id == id)
  }

  /** Live are exactly the connections accepted and not disconnected since, each with the slab it was told. */
  lemma {:induction false} LiveIff(c: Config, es: seq<Event>, id: nat)
    requires Requests(es) * c.perClient < WORD
    ensures id in HandleAll(c, es).live <==> exists k: nat :: StillOn(c, es, id, k)
    ensures forall k: nat | StillOn(c, es, id, k) ::
      id in HandleAll(c, es).live && HandleAll(c, es).live[id] == SlabAt(c, Requests(es[..k]) * c.perClient)
    decreases |es|
  {
    if es != [] {
      var n := |es| - 1;
      var es0 := es[..n];
      assert es[..n + 1] == es;
      RequestsGrow(es, n);
      MulOrder(Requests(es0), Requests(es), c.perClient);
      LiveIff(c, es0, id);
      AcceptedIff(c, es, n);
      OnPrefix(c, es, id);
      forall k: nat | StillOn(c, es0, id, k) ensures k < n && es0[..k] == es[..k] {
        InRange(c, es0, id, k);
      }
      hide HandleAll, SlabAt, Requests, Accepted, StillOn;
      if Accepted(c, es, n) && es[n].id == id {
        assert StillOn(c, es, id, n);
      } else if es[n] != Disconnect(id) && id in HandleAll(c, es0).live {
        var k: nat :| StillOn(c, es0, id, k);
        assert StillOn(c, es, id, k);
      }
    }
  }

  lemma InRange(c: Config, es: seq<Event>, id: nat, k: nat)
    requires StillOn(c, es, id, k)
    ensures k < |es|
  {
  }

  /** What the last event makes of who is still on. */
  lemma OnPrefix(c: Config, es: seq<Event>, id: nat)
    requires es != []
    ensures var n := |es| - 1;
      if Accepted(c, es, n) && es[n].id == id then forall k: nat :: StillOn(c, es, id, k) <==> k == n
      else if es[n] == Disconnect(id) then forall k: nat :: !StillOn(c, es, id, k)
      else forall k: nat :: StillOn(c, es, id, k) <==> StillOn(c, es[..n], id, k)
    ensures forall k | 0 <= k < |es| - 1 :: es[..|es| - 1][..k] == es[..k]
  {
    var n := |es| - 1;
    var es0 := es[..n];
    forall k | 0 <= k < n ensures es0[..k] == es[..k] && es0[k] == es[k] && (Accepted(c, es0, k) <==> Accepted(c, es, k)) {
      assert es0[..k] == es[..k];
    }
    hide Accepted;
  }

  // ------------------------------------------------------------ over any requests

  /** The counter is the number of requests, wrapped. */
  lemma {:induction false} NextWraps(c: Config, es: seq<Event>)
    requires c.perClient < WORD
    ensures HandleAll(c, es).next == Requests(es) * c.perClient % WORD
    decreases |es|
  {
    if es != [] {
      var n := |es| - 1;
      NextWraps(c, es[..n]);
      var r := Requests(es[..n]);
      assert (r + 1) * c.perClient == r * c.perClient + c.perClient;
      AddWraps(r * c.perClient, c.perClient);
    }
  }

  lemma AddWraps(x: nat, y: nat)
    ensures (x % WORD + y) % WORD == (x + y) % WORD
  {
    var r := (x % WORD + y) % WORD;
    Congruent(x + y, r, x / WORD + (x % WORD + y) / WORD);
  }

  /** Request `k`, if it is one that is set up, does not wrap the counter. */
  predicate NoWrapAt(c: Config, es: seq<Event>, k: nat)
    requires k < |es|
  {
    es[k].Connect? && es[k].ready ==> Requests(es[..k]) * c.perClient % WORD + c.perClient < WORD
  }

  lemma StepInsideIff(c: Config, s: Server, e: Event)
    requires Mapped(c) && 0 < c.perClient <= c.max && s.next < WORD && SlabsInside(c, s.issued)
    ensures SlabsInside(c, Handle(c, s, e).issued) <==> (e.Connect? && e.ready ==> s.next + c.perClient < WORD)
  {
    hide SlabAt, Inside;
    if s.next + c.perClient < WORD {
      if s.next + c.perClient <= c.max { SlabWithin(c, s.next); }
    } else {
      SlabEscapes(c, s.next);
      assert (s.next + c.perClient) % WORD == s.next + c.perClient - WORD;
      if e.Connect? && e.ready {
        assert Handle(c, s, e).issued[|s.issued|] == SlabAt(c, s.next);
      }
    }
  }

  predicate NoWrap(c: Config, es: seq<Event>) {
    forall k | 0 <= k < |es| :: NoWrapAt(c, es, k)
  }

  lemma NoWrapLast(c: Config, es: seq<Event>, n: nat)
    requires |es| == n + 1
    ensures NoWrap(c, es) <==> NoWrap(c, es[..n]) && NoWrapAt(c, es, n)
  {
    hide Requests;
    forall k | 0 <= k < n ensures NoWrapAt(c, es[..n], k) <==> NoWrapAt(c, es, k) {
      assert es[..n][..k] == es[..k] && es[..n][k] == es[k];
    }
    hide NoWrapAt;
  }

  lemma StillOutside(c: Config, s: Server, e: Event)
    requires SlabsInside(c, Handle(c, s, e).issued)
    ensures SlabsInside(c, s.issued)
  {
    hide Inside, Handle;
    IssuedGrows(c, s, e);
    forall i | 0 <= i < |s.issued| ensures Inside(s.issued[i], Buffer(c)) {
      assert Handle(c, s, e).issued[i] == s.issued[i];
    }
  }

  /** Over any sequence of events, all slabs lie in the buffer if and only if no request that was set up wrapped the counter. */
  lemma {:induction false} AllInsideIff(c: Config, es: seq<Event>)
    requires Mapped(c) && 0 < c.perClient <= c.max
    ensures AllInside(c, es) <==> NoWrap(c, es)
    decreases |es|
  {
    assert c.perClient < WORD;
    hide SlabsInside, Handle, Requests, NoWrap, NoWrapAt, Mapped;
    if es == [] {
      NothingIssued(c);
    } else {
      var n := |es| - 1;
      AllInsideIff(c, es[..n]);
      NoWrapLast(c, es, n);
      var s := HandleAll(c, es[..n]);
      CounterAt(c, es, n);
      if AllInside(c, es[..n]) {
        StepInsideIff(c, s, es[n]);
      } else if AllInside(c, es) {
        StillOutside(c, s, es[n]);
      }
    }
  }

  lemma NothingIssued(c: Config)
    ensures AllInside(c, []) && NoWrap(c, [])
  {
  }

  lemma CounterAt(c: Config, es: seq<Event>, n: nat)
    requires n < |es| && c.perClient < WORD
    ensures HandleAll(c, es[..n]).next < WORD
    ensures NoWrapAt(c, es, n) <==> (es[n].Connect? && es[n].ready ==> HandleAll(c, es[..n]).next + c.perClient < WORD)
  {
    hide HandleAll, Requests;
    NextWraps(c, es[..n]);
  }

  lemma IssuedGrows(c: Config, s: Server, e: Event)
    ensures s.issued <= Handle(c, s, e).issued
  {
  }

  // ------------------------------------------------------------ the client

  /** `live` is history: the handles allocated and not freed. */
  datatype Client = Client(max: nat, used: nat, live: set<nat>)

  function Take(c: Client): Client
    requires c.used < c.max
  {
    c.(used := c.used + 1, live := c.live + {c.used})
  }

  function Give(c: Client, h: nat): Client {
    c.(used := (c.used + WORD - 1) % WORD, live := c.live - {h})
  }

  class RdmaBackend {
    const max: nat
    var used: nat
    ghost var live: set<nat>

    constructor (max: nat)
      ensures View() == Client(max, 0, {})
    {
      this.max, used, live := max, 0, {};
    }

    ghost function View(): Client
      reads this
    {
      Client(max, used, live)
    }

    method AllocPage() returns (r: Option<nat>)
      modifies this
      ensures r.Some? <==> old(used) < max
      ensures r.Some? ==> r.value == old(used) && View() == Take(old(View()))
      ensures r.None? ==> View() == old(View())
    {
      if used >= max {
        return None;
      }
      r := Some(used);
      live := live + {used};
      used := used + 1;
    }

    /** The handle is not looked at. */
    method FreePage(ghost h: nat)
      modifies this
      ensures View() == Give(old(View()), h)
    {
      used := (used + WORD - 1) % WORD;
      live := live - {h};
    }
  }

  /** The bytes a transfer of page `h` touches. */
  function Transfer(slab: Slab, h: nat): Slab {
    Slab(slab.addr + h * PAGE_SIZE, PAGE_SIZE)
  }

  /** Two handles address a common byte only if they are the same, and each addresses 4096 bytes. */
  lemma TransfersApart(slab: Slab, h: nat, h': nat)
    ensures Transfer(slab, h).size == 4096 && (Disjoint(Transfer(slab, h), Transfer(slab, h')) <==> h != h')
  {
    if h < h' { MulOrder(h + 1, h', PAGE_SIZE); }
    if h' < h { MulOrder(h' + 1, h, PAGE_SIZE); }
  }

  datatype Op = Alloc | Free(h: nat)

  function Do(c: Client, op: Op): Client {
    match op
    case Alloc => if c.used < c.max then Take(c) else c
    case Free(h) => Give(c, h)
  }

  function DoAll(c: Client, ops: seq<Op>): Client {
    if ops == [] then c else Do(DoAll(c, ops[..|ops| - 1]), ops[|ops| - 1])
  }

  lemma {:induction false} HandlesBounded(max: nat, ops: seq<Op>)
    ensures var c := DoAll(Client(max, 0, {}), ops); c.max == max && forall h | h in c.live :: h < max
    decreases |ops|
  {
    if ops != [] {
      HandlesBounded(max, ops[..|ops| - 1]);
    }
  }

  /** After any allocations and frees, the transfers of a client no larger than its slab stay in the slab. */
  lemma TransfersInside(c: Config, slab: Slab, max: nat, ops: seq<Op>, h: nat)
    requires slab.size == c.perClient * PAGE_SIZE && max <= c.perClient
    requires h in DoAll(Client(max, 0, {}), ops).live
    ensures Inside(Transfer(slab, h), slab)
  {
    HandlesBounded(max, ops);
  }

  /** Two connections of one server never touch a common byte. */
  lemma Isolated(c: Config, es: seq<Event>, i: nat, j: nat, max: nat, ops: seq<Op>, h: nat, max': nat, ops': seq<Op>, h': nat)
    requires Mapped(c) && Requests(es) * c.perClient < WORD && max <= c.perClient && max' <= c.perClient
    requires i < |HandleAll(c, es).issued| && j < |HandleAll(c, es).issued| && i != j
    requires h in DoAll(Client(max, 0, {}), ops).live && h' in DoAll(Client(max', 0, {}), ops').live
    ensures var issued := HandleAll(c, es).issued; Disjoint(Transfer(issued[i], h), Transfer(issued[j], h'))
  {
    hide HandleAll, DoAll, Transfer;
    var issued := HandleAll(c, es).issued;
    SlabsDisjoint(c, es, i, j);
    RunAscends(c, es);
    TransfersInside(c, issued[i], max, ops, h);
    TransfersInside(c, issued[j], max', ops', h');
    TransferSize(issued[i], h);
  }

  lemma TransferSize(slab: Slab, h: nat)
    ensures Transfer(slab, h).size == PAGE_SIZE
  {
  }

  // ------------------------------------------------------------ runs of allocations

  function TakeN(c: Client, n: nat): Client
    requires c.used + n <= c.max
    ensures TakeN(c, n).used == c.used + n && TakeN(c, n).max == c.max
    ensures c.live <= TakeN(c, n).live
  {
    if n == 0 then c else Take(TakeN(c, n - 1))
  }

  /** The client does not look at the size of its slab: a fresh one leaves it if and only if it may hold more pages. */
  lemma InsideIff(c: Config, slab: Slab, max: nat)
    requires slab.size == c.perClient * PAGE_SIZE
    ensures (forall n: nat | n < max :: Inside(Transfer(slab, TakeN(Client(max, 0, {}), n).used), slab)) <==> max <= c.perClient
  {
    if max > c.perClient {
      assert !Inside(Transfer(slab, TakeN(Client(max, 0, {}), c.perClient).used), slab);
    }
  }

  /** Each live handle was counted once, and none is out of range: how a client is until a handle is given out twice. */
  predicate Counted(c: Client) {
    |c.live| == c.used && forall h | h in c.live :: h < c.max
  }

  /**
   Handles are not fresh after an arbitrary free. Allocating on from here never gives out
   a live handle if and only if the live handles are the lowest ones.
   */
  lemma FreshIff(c: Client)
    requires Counted(c)
    ensures (forall n: nat | c.used + n < c.max :: TakeN(c, n).used !in TakeN(c, n).live) <==> c.live == Below(c.used)
  {
    if c.live == Below(c.used) {
      forall n: nat | c.used + n < c.max ensures TakeN(c, n).used !in TakeN(c, n).live {
        LowestStay(c, n);
      }
    } else {
      var h := Stray(c);
      assert TakeN(c, h - c.used).used == h;
    }
  }

  lemma {:induction false} LowestStay(c: Client, n: nat)
    requires c.used + n <= c.max && forall h: nat :: h in c.live <==> h < c.used
    ensures forall h: nat :: h in TakeN(c, n).live <==> h < c.used + n
  {
    if n != 0 {
      LowestStay(c, n - 1);
    }
  }

  lemma Stray(c: Client) returns (h: nat)
    requires Counted(c) && c.live != Below(c.used)
    ensures h in c.live && h >= c.used
  {
    if c.live <= Below(c.used) {
      SubsetCount(c.live, Below(c.used));
      assert false;
    }
    h :| h in c.live && h !in Below(c.used);
  }

  /** Frees of live handles and allocations of handles not live: no handle is out twice. */
  predicate Proper(c: Client, op: Op) {
    match op
    case Alloc => c.used !in c.live
    case Free(h) => h in c.live
  }

  ghost predicate ProperRun(max: nat, ops: seq<Op>) {
    forall k | 0 <= k < |ops| :: Proper(DoAll(Client(max, 0, {}), ops[..k]), ops[k])
  }

  lemma ProperStep(c: Client, op: Op)
    requires Counted(c) && c.max < WORD && Proper(c, op)
    ensures Counted(Do(c, op))
  {
    CountBelow(c);
    if op.Free? {
      assert c.live == (c.live - {op.h}) + {op.h};
      assert (c.used + WORD - 1) % WORD == c.used - 1;
    }
  }

  lemma CountBelow(c: Client)
    requires Counted(c)
    ensures c.used <= c.max
  {
    SubsetCount(c.live, Below(c.max));
  }

  /** Until some handle is out twice, the counter counts the live handles; so `FreshIff` says when that may happen next. */
  lemma {:induction false} ProperCounted(max: nat, ops: seq<Op>)
    requires max < WORD && ProperRun(max, ops)
    ensures Counted(DoAll(Client(max, 0, {}), ops))
    decreases |ops|
  {
    if ops != [] {
      hide Counted, Proper, Do;
      var n := |ops| - 1;
      assert forall k | 0 <= k < n :: ops[..n][..k] == ops[..k];
      ProperCounted(max, ops[..n]);
      HandlesBounded(max, ops[..n]);
      assert Proper(DoAll(Client(max, 0, {}), ops[..n]), ops[n]);
      ProperStep(DoAll(Client(max, 0, {}), ops[..n]), ops[n]);
    }
  }

  /** It does happen: two allocations, and a free of the first; the next allocation hands out the second again. */
  lemma HandleOutTwice(max: nat)
    requires 2 <= max < WORD
    ensures var ops := [Alloc, Alloc, Free(0)]; var c := DoAll(Client(max, 0, {}), ops);
      && ProperRun(max, ops) && c.used < c.max && c.used in c.live
  {
    var c0, ops := Client(max, 0, {}), [Alloc, Alloc, Free(0)];
    assert ops[..1] == [Alloc] && ops[..2] == [Alloc, Alloc] && ops[..3] == ops;
    assert [Alloc][..0] == [] && [Alloc, Alloc][..1] == [Alloc] && ops[..0] == [];
    assert DoAll(c0, [Alloc]) == Client(max, 1, {0});
    assert DoAll(c0, [Alloc, Alloc]) == Client(max, 2, {0, 1});
    assert {0, 1} - {0} == {1};
    assert DoAll(c0, ops) == Client(max, 1, {1});
  }

  /** Freeing keeps the live handles lowest exactly when the last one goes: last in, first out. */
  lemma LifoKeeps(c: Client, h: nat)
    requires c.live == Below(c.used) && h in c.live && c.used < WORD
    ensures Give(c, h).live == Below(Give(c, h).used) <==> h == c.used - 1
  {
    assert (c.used + WORD - 1) % WORD == c.used - 1;
    assert c.used - 1 in c.live;
  }
}
