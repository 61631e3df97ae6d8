/**
 What a client of the memory server can tell from the replies alone, whatever it sends:
 which offsets it is granted, what a load finds, and when it is refused. And the page
 store is the server of `MemServer` with one client on it.
 */
module WireLaws {
  import opened Bits
  import opened Pages
  import opened Wire
  import MS = MemServer

  function Empty(max: nat): Store {
    Store(max, 0, 0, map[])
  }

  function After(max: nat, rs: seq<Request>, n: nat): Store
    requires n <= |rs|
  {
    PerformAll(Empty(max), rs[..n]).0
  }

  function Replies(max: nat, rs: seq<Request>): seq<Reply> {
    PerformAll(Empty(max), rs).1
  }

  lemma {:induction false} PerformSnoc(s: Store, rs: seq<Request>, r: Request)
    ensures var (s1, qs) := PerformAll(s, rs);
      PerformAll(s, rs + [r]) == (Perform(s1, r).0, qs + [Perform(s1, r).1])
    decreases |rs|
  {
    hide Perform;
    if rs == [] {
      assert [r][1..] == [] && [] + [r] == [r];
      assert [Perform(s, r).1] + [] == [] + [Perform(s, r).1];
    } else {
      var (s1, q) := Perform(s, rs[0]);
      PerformSnoc(s1, rs[1..], r);
      assert (rs + [r])[1..] == rs[1..] + [r];
      var qs := PerformAll(s1, rs[1..]).1;
      var last := Perform(PerformAll(s1, rs[1..]).0, r).1;
      assert [q] + (qs + [last]) == ([q] + qs) + [last];
    }
  }

  lemma {:induction false} RepliesPrefix(max: nat, rs: seq<Request>, n: nat)
    requires n <= |rs|
    ensures |Replies(max, rs)| == |rs| && PerformAll(Empty(max), rs[..n]).1 == Replies(max, rs)[..n]
    decreases |rs|
  {
    hide Perform;
    if n == |rs| {
      assert rs[..n] == rs;
    }
    if rs != [] {
      var m := |rs| - 1;
      assert rs == rs[..m] + [rs[m]];
      PerformSnoc(Empty(max), rs[..m], rs[m]);
      RepliesPrefix(max, rs[..m], if n <= m then n else m);
      if n <= m { assert rs[..m][..n] == rs[..n]; }
    }
  }

  lemma RepliesCount(max: nat, rs: seq<Request>)
    ensures |Replies(max, rs)| == |rs|
  {
    RepliesPrefix(max, rs, 0);
  }

  /** Each request is performed on what those before it left. */
  lemma StepAt(max: nat, rs: seq<Request>, n: nat)
    requires n < |rs|
    ensures |Replies(max, rs)| == |rs|
    ensures Perform(After(max, rs, n), rs[n]) == (After(max, rs, n + 1), Replies(max, rs)[n])
  {
    hide Perform;
    RepliesPrefix(max, rs, n);
    RepliesPrefix(max, rs, n + 1);
    assert rs[..n + 1] == rs[..n] + [rs[n]];
    PerformSnoc(Empty(max), rs[..n], rs[n]);
    assert Replies(max, rs)[..n + 1][n] == Replies(max, rs)[n];
  }

  // ------------------------------------------------------------ what an offset holds

  /** The reply says that the page at `o` was replaced or removed. */
  predicate Changes(r: Request, q: Reply, o: nat) {
    q.Done? && (r.StoreReq? || r.FreeReq?) && r.offset == o
  }

  /** Request `j` stored `d` at `o`, was acknowledged, and nothing acknowledged before request `n` undid it. */
  predicate StoredBy(rs: seq<Request>, qs: seq<Reply>, n: nat, o: nat, d: Page, j: nat)
    requires n <= |rs| == |qs|
  {
    && j < n && rs[j] == StoreReq(o, d) && qs[j].Done?
    && forall k | j < k < n :: !Changes(rs[k], qs[k], o)
  }

  /** By the replies, `o` holds `d` when request `n` comes. */
  ghost predicate Holds(rs: seq<Request>, qs: seq<Reply>, n: nat, o: nat, d: Page)
    requires n <= |rs| == |qs|
  {
    exists j: nat :: StoredBy(rs, qs, n, o, d, j)
  }

  lemma HoldsStep(rs: seq<Request>, qs: seq<Reply>, n: nat, o: nat, d: Page)
    requires n < |rs| == |qs|
    ensures Holds(rs, qs, n + 1, o, d) <==>
      if Changes(rs[n], qs[n], o) then rs[n] == StoreReq(o, d) else Holds(rs, qs, n, o, d)
  {
    if Changes(rs[n], qs[n], o) {
      if rs[n] == StoreReq(o, d) {
        assert StoredBy(rs, qs, n + 1, o, d, n);
      }
    } else if Holds(rs, qs, n, o, d) {
      var j: nat :| StoredBy(rs, qs, n, o, d, j);
      assert StoredBy(rs, qs, n + 1, o, d, j);
    } else if Holds(rs, qs, n + 1, o, d) {
      var j: nat :| StoredBy(rs, qs, n + 1, o, d, j);
      assert StoredBy(rs, qs, n, o, d, j);
    }
  }

  lemma PagesStep(s: Store, r: Request, s': Store, q: Reply, o: nat, d: Page)
    requires Perform(s, r) == (s', q)
    ensures o in s'.pages && s'.pages[o] == d <==>
      if Changes(r, q, o) then r == StoreReq(o, d) else o in s.pages && s.pages[o] == d
  {
  }

  lemma NoPages(max: nat, rs: seq<Request>)
    ensures After(max, rs, 0).pages == map[]
  {
  }

  lemma {:induction false} PagesAre(max: nat, rs: seq<Request>, n: nat, o: nat, d: Page)
    requires n <= |rs|
    ensures |Replies(max, rs)| == |rs|
    ensures o in After(max, rs, n).pages && After(max, rs, n).pages[o] == d <==> Holds(rs, Replies(max, rs), n, o, d)
    decreases n
  {
    RepliesCount(max, rs);
    if n == 0 {
      NoPages(max, rs);
    } else {
      hide After, Replies, Perform, PerformAll, Holds, Changes;
      PagesAre(max, rs, n - 1, o, d);
      StepAt(max, rs, n - 1);
      PagesStep(After(max, rs, n - 1), rs[n - 1], After(max, rs, n), Replies(max, rs)[n - 1], o, d);
      HoldsStep(rs, Replies(max, rs), n - 1, o, d);
    }
  }

  // ------------------------------------------------------------ how many are out

  function Grants(qs: seq<Reply>, n: nat): (k: nat)
    requires n <= |qs|
    ensures k <= n
  {
    if n == 0 then 0 else Grants(qs, n - 1) + if qs[n - 1].Granted? then 1 else 0
  }

  function Frees(rs: seq<Request>, qs: seq<Reply>, n: nat): nat
    requires n <= |rs| == |qs|
  {
    if n == 0 then 0 else Frees(rs, qs, n - 1) + if rs[n - 1].FreeReq? && qs[n - 1].Done? then 1 else 0
  }

  /** Grants less successful frees, as the server's 64-bit counter has it. */
  function Out(rs: seq<Request>, qs: seq<Reply>, n: nat): nat
    requires n <= |rs| == |qs|
  {
    (Grants(qs, n) - Frees(rs, qs, n)) % WORD
  }

  lemma ModMoves(x: int, u: nat)
    requires u == x % WORD
    ensures u + 1 < WORD ==> (x + 1) % WORD == u + 1
    ensures (x + 1) % WORD == (u + 1) % WORD && (x - 1) % WORD == (u + WORD - 1) % WORD
  {
    var q := x / WORD;
    assert x == q * WORD + u;
    if u + 1 < WORD { ModIs(x + 1, q, u + 1); } else { ModIs(x + 1, q + 1, 0); }
    if u == 0 { ModIs(x - 1, q - 1, WORD - 1); } else { ModIs(x - 1, q, u - 1); }
  }

  lemma ModIs(x: int, q: int, r: nat)
    requires x == q * WORD + r && r < WORD
    ensures x % WORD == r
  {
  }

  /** The store's counters, given grants less frees and grants. */
  predicate Counted(s: Store, max: nat, x: int, g: nat) {
    s.max == max && s.used == x % WORD && s.next == g % WORD
  }

  lemma CountStep(s: Store, r: Request, s': Store, q: Reply, max: nat, x: int, g: nat)
    requires Counted(s, max, x, g) && max < WORD && Perform(s, r) == (s', q)
    ensures Counted(s', max, x + (if q.Granted? then 1 else 0) - (if r.FreeReq? && q.Done? then 1 else 0),
                    g + if q.Granted? then 1 else 0)
  {
    ModMoves(x, s.used);
    ModMoves(g, s.next);
  }

  lemma CountNothing(max: nat, rs: seq<Request>)
    ensures Counted(After(max, rs, 0), max, 0, 0)
  {
    ModIs(0, 0, 0);
  }

  lemma {:induction false} CountsAre(max: nat, rs: seq<Request>, n: nat)
    requires n <= |rs| && max < WORD
    ensures |Replies(max, rs)| == |rs|
    ensures var qs := Replies(max, rs); Counted(After(max, rs, n), max, Grants(qs, n) - Frees(rs, qs, n), Grants(qs, n))
    decreases n
  {
    hide After, Replies, Perform, PerformAll, Counted;
    RepliesCount(max, rs);
    if n == 0 {
      CountNothing(max, rs);
    } else {
      var qs := Replies(max, rs);
      CountsAre(max, rs, n - 1);
      StepAt(max, rs, n - 1);
      var g: int, f: int := Grants(qs, n - 1), Frees(rs, qs, n - 1);
      CountStep(After(max, rs, n - 1), rs[n - 1], After(max, rs, n), qs[n - 1], max, g - f, g);
    }
  }

  lemma {:induction false} GrantsGrow(qs: seq<Reply>, i: nat, j: nat)
    requires i < j <= |qs| && qs[i].Granted?
    ensures Grants(qs, i) < Grants(qs, j)
    decreases j
  {
    if i + 1 < j { GrantsGrow(qs, i, j - 1); }
  }

  // ------------------------------------------------------------ the laws

  /** No offset is granted twice, as long as the 64-bit counter of offsets does not wrap. */
  lemma GrantsDistinct(max: nat, rs: seq<Request>, i: nat, j: nat)
    requires max < WORD && |rs| <= WORD && i < j < |rs| == |Replies(max, rs)|
    requires Replies(max, rs)[i].Granted? && Replies(max, rs)[j].Granted?
    ensures Replies(max, rs)[i].offset != Replies(max, rs)[j].offset
  {
    var qs := Replies(max, rs);
    StepAt(max, rs, i);
    StepAt(max, rs, j);
    CountsAre(max, rs, i);
    CountsAre(max, rs, j);
    GrantsGrow(qs, i, j);
    GrantedIsNext(After(max, rs, i), rs[i]);
    GrantedIsNext(After(max, rs, j), rs[j]);
    hide After, Replies, Perform;
    ModIs(Grants(qs, i), 0, Grants(qs, i));
    ModIs(Grants(qs, j), 0, Grants(qs, j));
  }

  lemma GrantedIsNext(s: Store, r: Request)
    requires Perform(s, r).1.Granted?
    ensures Perform(s, r).1.offset == s.next
  {
  }

  /** A load finds exactly what was last stored there and acknowledged, unless a free was since. */
  lemma LoadsFind(max: nat, rs: seq<Request>, i: nat, d: Page)
    requires i < |rs| && rs[i].LoadReq?
    ensures |Replies(max, rs)| == |rs| && (Replies(max, rs)[i].Found? || Replies(max, rs)[i].Missing?)
    ensures Replies(max, rs)[i] == Found(d) <==> Holds(rs, Replies(max, rs), i, rs[i].offset, d)
  {
    StepAt(max, rs, i);
    PagesAre(max, rs, i, rs[i].offset, d);
    hide After, Replies, Holds;
  }

  /** A free succeeds exactly when the offset holds a page. */
  lemma FreesSucceed(max: nat, rs: seq<Request>, i: nat)
    requires i < |rs| && rs[i].FreeReq?
    ensures |Replies(max, rs)| == |rs| && (Replies(max, rs)[i].Done? || Replies(max, rs)[i].Failed?)
    ensures Replies(max, rs)[i].Done? <==> exists d :: Holds(rs, Replies(max, rs), i, rs[i].offset, d)
  {
    StepAt(max, rs, i);
    HoldsSome(max, rs, i, rs[i].offset);
    hide After, Replies, Holds;
  }

  lemma HoldsSome(max: nat, rs: seq<Request>, i: nat, o: nat)
    requires i <= |rs|
    ensures |Replies(max, rs)| == |rs|
    ensures o in After(max, rs, i).pages <==> exists d :: Holds(rs, Replies(max, rs), i, o, d)
  {
    RepliesPrefix(max, rs, i);
    hide After, Replies, Holds;
    if o in After(max, rs, i).pages {
      PagesAre(max, rs, i, o, After(max, rs, i).pages[o]);
    }
    forall d | Holds(rs, Replies(max, rs), i, o, d) ensures o in After(max, rs, i).pages {
      PagesAre(max, rs, i, o, d);
    }
  }

  /** A store is refused exactly when it would be one page too many. */
  lemma StoresRefused(max: nat, rs: seq<Request>, i: nat, held: set<nat>)
    requires i < |rs| == |Replies(max, rs)| && rs[i].StoreReq?
    requires forall o :: o in held <==> exists d :: Holds(rs, Replies(max, rs), i, o, d)
    ensures Replies(max, rs)[i].Done? || Replies(max, rs)[i].Failed?
    ensures Replies(max, rs)[i].Failed? <==> rs[i].offset !in held && |held| >= max
  {
    StepAt(max, rs, i);
    MaxStays(max, rs, i);
    hide Holds;
    forall o ensures o in held <==> o in After(max, rs, i).pages {
      HoldsSome(max, rs, i, o);
    }
    assert held == After(max, rs, i).pages.Keys;
    hide After, Replies;
  }

  lemma {:induction false} MaxStays(max: nat, rs: seq<Request>, n: nat)
    requires n <= |rs|
    ensures After(max, rs, n).max == max
    decreases n
  {
    if n != 0 {
      MaxStays(max, rs, n - 1);
      StepAt(max, rs, n - 1);
    }
  }

  /** An allocation is refused exactly when as many are out as the server may hold; STATUS tells both. */
  lemma AllocsRefused(max: nat, rs: seq<Request>, i: nat)
    requires i < |rs| && max < WORD
    ensures |Replies(max, rs)| == |rs|
    ensures rs[i].AllocReq? ==>
      && (Replies(max, rs)[i].Refused? || Replies(max, rs)[i].Granted?)
      && (Replies(max, rs)[i].Refused? <==> Out(rs, Replies(max, rs), i) >= max)
    ensures rs[i].StatusReq? ==> Replies(max, rs)[i] == Usage(Out(rs, Replies(max, rs), i), max)
  {
    StepAt(max, rs, i);
    CountsAre(max, rs, i);
    hide After, Replies, Out;
  }

  // ------------------------------------------------------------ one client of the server

  /** The server holds what the page store does, and nobody is in the middle of a call. */
  predicate Same(s: Store, m: MS.Server) {
    s.max == m.max && s.used == m.used && s.next == m.next && s.pages == m.pages && m.lock.None? && m.busy == map[]
  }

  /** The steps client `c` takes for a request. */
  function StepsOf(c: nat, s: Store, r: Request): seq<MS.Step> {
    match r
    case AllocReq => if s.used < s.max then [MS.Load(c), MS.Swap(c), MS.Grant(c)] else [MS.Load(c)]
    case StoreReq(o, data) => [MS.Store(c, o, data)]
    case LoadReq(o) => [MS.Fetch(c, o)]
    case FreeReq(o) => if o in s.pages then [MS.Remove(c, o), MS.Decrement(c)] else [MS.Remove(c, o)]
    case StatusReq => []
  }

  /** A request is those steps with nobody in between. */
  lemma Refines(s: Store, r: Request, m: MS.Server, c: nat) returns (m': MS.Server)
    requires Same(s, m) && s.next + 1 < WORD
    ensures MS.RunsFreely(m, StepsOf(c, s, r), m') && Same(Perform(s, r).0, m')
    ensures Perform(s, r).1.Granted? ==> m'.owner == m.owner[Perform(s, r).1.offset := c]
  {
    match r
    case AllocReq => m' := AllocRefines(s, m, c);
    case StoreReq(o, data) =>
      m' := MS.Apply(m, MS.Store(c, o, data));
      hide MS.RunsFreely;
      MS.Single(m, MS.Store(c, o, data));
    case LoadReq(o) =>
      m' := MS.Apply(m, MS.Fetch(c, o));
      hide MS.RunsFreely;
      MS.Single(m, MS.Fetch(c, o));
    case FreeReq(o) => m' := FreeRefines(s, o, m, c);
    case StatusReq => m' := m;
  }

  lemma AllocRefines(s: Store, m: MS.Server, c: nat) returns (m': MS.Server)
    requires Same(s, m) && s.next + 1 < WORD
    ensures MS.RunsFreely(m, StepsOf(c, s, AllocReq), m') && Same(Perform(s, AllocReq).0, m')
    ensures Perform(s, AllocReq).1.Granted? ==> m'.owner == m.owner[Perform(s, AllocReq).1.offset := c]
  {
    if s.used < s.max {
      assert MS.RunsFreely(m, [], m);
      hide MS.RunsFreely;
      assert [MS.Load(c), MS.Swap(c), MS.Grant(c)] == [] + [MS.Load(c), MS.Swap(c), MS.Grant(c)];
      m' := MS.GrantFreely(m, [], m, c);
    } else {
      m' := MS.Apply(m, MS.Load(c));
      hide MS.RunsFreely;
      MS.Single(m, MS.Load(c));
    }
  }

  lemma FreeRefines(s: Store, o: nat, m: MS.Server, c: nat) returns (m': MS.Server)
    requires Same(s, m)
    ensures MS.RunsFreely(m, StepsOf(c, s, FreeReq(o)), m') && Same(Perform(s, FreeReq(o)).0, m')
  {
    hide MS.RunsFreely;
    var m1 := MS.Apply(m, MS.Remove(c, o));
    MS.Single(m, MS.Remove(c, o));
    if o in s.pages {
      m' := MS.Apply(m1, MS.Decrement(c));
      MS.Extend(m, [MS.Remove(c, o)], m1, MS.Decrement(c));
      assert [MS.Remove(c, o)] + [MS.Decrement(c)] == [MS.Remove(c, o), MS.Decrement(c)];
      assert m1.busy - {c} == map[];
    } else {
      m' := m1;
    }
  }

  function AllSteps(c: nat, s: Store, rs: seq<Request>): seq<MS.Step>
    decreases |rs|
  {
    if rs == [] then [] else StepsOf(c, s, rs[0]) + AllSteps(c, Perform(s, rs[0]).0, rs[1..])
  }

  lemma {:induction false} ConcatFreely(s: MS.Server, a: seq<MS.Step>, m: MS.Server, b: seq<MS.Step>, s': MS.Server)
    requires MS.RunsFreely(s, a, m) && MS.RunsFreely(m, b, s')
    ensures MS.RunsFreely(s, a + b, s')
    decreases |a|
  {
    hide MS.Enabled, MS.Apply;
    if a == [] {
      assert a + b == b;
    } else {
      ConcatFreely(MS.Apply(s, a[0]), a[1..], m, b, s');
      assert (a + b)[1..] == a[1..] + b;
    }
  }

  /** Any sequence of requests is a run of the server with one client on it, and ends with the same pages and counts. */
  lemma {:induction false} OneClientRefines(s: Store, rs: seq<Request>, m: MS.Server, c: nat) returns (m': MS.Server)
    requires Same(s, m) && s.next + |rs| < WORD
    ensures MS.RunsFreely(m, AllSteps(c, s, rs), m') && Same(PerformAll(s, rs).0, m')
    decreases |rs|
  {
    if rs == [] {
      m' := m;
    } else {
      var m1 := Refines(s, rs[0], m, c);
      assert Perform(s, rs[0]).0.next <= s.next + 1 by { NextMoves(s, rs[0]); }
      hide Perform, MS.RunsFreely, StepsOf, Same;
      m' := OneClientRefines(Perform(s, rs[0]).0, rs[1..], m1, c);
      ConcatFreely(m, StepsOf(c, s, rs[0]), m1, AllSteps(c, Perform(s, rs[0]).0, rs[1..]), m');
    }
  }

  lemma NextMoves(s: Store, r: Request)
    requires s.next + 1 < WORD
    ensures Perform(s, r).0.next <= s.next + 1
  {
  }

  // ------------------------------------------------------------ any bytes

  /** What a client may send: a request, or a byte that starts none. */
  datatype Item = Ask(request: Request) | Junk(code: byte)

  predicate ValidItem(i: Item) {
    match i
    case Ask(r) => ValidRequest(r)
    case Junk(b) => b == 0 || b > 5
  }

  function ItemBytes(i: Item): seq<byte> {
    match i
    case Ask(r) => Encode(r)
    case Junk(b) => [b]
  }

  function ItemsBytes(items: seq<Item>): seq<byte> {
    if items == [] then [] else ItemBytes(items[0]) + ItemsBytes(items[1..])
  }

  /** The requests among the items are performed in order; every other byte is answered with an error. */
  function PerformItems(s: Store, items: seq<Item>): (Store, seq<byte>)
    decreases |items|
  {
    if items == [] then (s, [])
    else match items[0]
      case Ask(r) =>
        var (s1, q) := Perform(s, r);
        var (s2, out) := PerformItems(s1, items[1..]);
        (s2, EncodeReply(q) + out)
      case Junk(_) =>
        var (s2, out) := PerformItems(s, items[1..]);
        (s2, [RESP_ERR] + out)
  }

  /** A request broken off before its end. */
  ghost predicate BrokenOff(tail: seq<byte>) {
    tail == [] || exists r :: ValidRequest(r) && |tail| < |Encode(r)| && tail == Encode(r)[..|tail|]
  }

  lemma BrokenIsShort(tail: seq<byte>)
    requires BrokenOff(tail)
    ensures Parse(tail) == Short
  {
    if tail != [] {
      var r :| ValidRequest(r) && |tail| < |Encode(r)| && tail == Encode(r)[..|tail|];
      assert tail[0] == Encode(r)[0];
    }
  }

  lemma JunkParses(b: byte, rest: seq<byte>)
    requires ValidItem(Junk(b))
    ensures Parse([b] + rest) == Unknown(rest)
  {
    assert ([b] + rest)[1..] == rest;
  }

  /** Whatever mixture of requests and other bytes a client sends, and wherever it breaks off, exactly the whole requests are performed. */
  lemma {:induction false} ServeItems(s: Store, items: seq<Item>, tail: seq<byte>)
    requires ValidStore(s) && (forall i | i in items :: ValidItem(i)) && BrokenOff(tail)
    ensures Serve(s, ItemsBytes(items) + tail) == PerformItems(s, items)
    decreases |items|
  {
    hide Perform, EncodeReply, Encode, Parse, ValidStore, ValidItem, BrokenOff;
    if items == [] {
      assert ItemsBytes(items) + tail == tail;
      BrokenIsShort(tail);
    } else {
      var rest := ItemsBytes(items[1..]) + tail;
      assert ItemsBytes(items) + tail == ItemBytes(items[0]) + rest;
      match items[0]
      case Ask(r) =>
        AskValid(r);
        PerformValid(s, r);
        ParseEncoded(r, rest);
        ServeItems(Perform(s, r).0, items[1..], tail);
      case Junk(b) =>
        JunkParses(b, rest);
        ServeItems(s, items[1..], tail);
    }
  }

  lemma AskValid(r: Request)
    requires ValidItem(Ask(r))
    ensures ValidRequest(r)
  {
  }

  // ------------------------------------------------------------ the bytes themselves

  /** The first byte and the length of every message, refusals included. */
  lemma Messages(s: Store, r: Request)
    requires ValidStore(s) && ValidRequest(r)
    ensures |Encode(r)| == match r case StoreReq(_, _) => 4105 case LoadReq(_) => 9 case FreeReq(_) => 9 case _ => 1
    ensures Encode(r)[0] == match r
      case StoreReq(_, _) => 1 case LoadReq(_) => 2 case FreeReq(_) => 3 case AllocReq => 4 case StatusReq => 5
    ensures var q := Perform(s, r).1;
      |EncodeReply(q)| == match q
        case Granted(_) => 9 case Refused => 9 case Found(_) => 4097 case Usage(_, _) => 17 case _ => 1
    ensures var q := Perform(s, r).1;
      EncodeReply(q)[0] == if q.Refused? || q.Failed? || q.Missing? then 1 else 0
  {
  }

  /** Words go low byte first. */
  lemma {:induction false} LowByteFirst(n: nat, k: nat, i: nat)
    requires i < k
    ensures ToLe(n, k)[i] as nat == n / Pow256(i) % 256
    decreases k
  {
    if i != 0 {
      LowByteFirst(n / 256, k - 1, i - 1);
      DivTwice(n, Pow256(i - 1));
    }
  }

  lemma DivTwice(n: nat, p: nat)
    requires p > 0
    ensures n / (256 * p) == n / 256 / p
  {
    var h := n / 256;
    var q, r := h / p, h % p;
    assert h == q * p + r;
    assert n == q * (256 * p) + (256 * r + n % 256);
    DivModUnique(n, 256 * p, q, 256 * r + n % 256);
  }
}
