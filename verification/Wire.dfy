/**
 The byte protocol between the TCP backend and the memory server, and the server's
 page store behind it.

 Serving any concatenation of encoded requests performs exactly those requests, in
 order, and the bytes sent back are exactly what the client reads for each of
 them; so the stream never slips, whatever succeeds or is refused.
 */
module Wire {
  import opened Pages

  const OP_STORE: byte := 1
  const OP_LOAD: byte := 2
  const OP_FREE: byte := 3
  const OP_ALLOC: byte := 4
  const OP_STATUS: byte := 5
  const RESP_OK: byte := 0
  const RESP_ERR: byte := 1

  const WORD: nat := 0x1_0000_0000_0000_0000

  // ------------------------------------------------------------ 64-bit words, little endian

  function Pow256(k: nat): (p: nat)
    ensures p > 0
  {
    if k == 0 then 1 else 256 * Pow256(k - 1)
  }

  function ToLe(n: nat, k: nat): (s: seq<byte>)
    ensures |s| == k
  {
    if k == 0 then [] else [(n % 256) as byte] + ToLe(n / 256, k - 1)
  }

  function FromLe(s: seq<byte>): nat {
    if s == [] then 0 else s[0] as nat + 256 * FromLe(s[1..])
  }

  lemma {:induction false} LeRoundTrip(n: nat, k: nat)
    requires n < Pow256(k)
    ensures FromLe(ToLe(n, k)) == n
  {
    if k != 0 {
      LeRoundTrip(n / 256, k - 1);
      assert ToLe(n, k)[1..] == ToLe(n / 256, k - 1);
    }
  }

  lemma WordBytes()
    ensures Pow256(8) == WORD
  {
    assert Pow256(1) == 256;
    assert Pow256(2) == 0x1_0000;
    assert Pow256(4) == 0x1_0000_0000;
  }

  function Word(n: nat): (s: seq<byte>)
    ensures |s| == 8
  {
    ToLe(n, 8)
  }

  lemma WordRoundTrip(n: nat)
    requires n < WORD
    ensures FromLe(Word(n)) == n
  {
    WordBytes();
    LeRoundTrip(n, 8);
  }

  // ------------------------------------------------------------ the page store

  datatype Store = Store(max: nat, used: nat, next: nat, pages: map<nat, Page>)

  predicate ValidStore(s: Store) {
    && s.max < WORD && s.used < WORD && s.next < WORD
    && forall o | o in s.pages :: |s.pages[o]| == PAGE_SIZE
  }

  datatype Request = AllocReq | StoreReq(offset: nat, data: Page) | LoadReq(offset: nat) | FreeReq(offset: nat) | StatusReq

  /** What a client may send: offsets are words, pages are pages. */
  predicate ValidRequest(r: Request) {
    match r
    case StoreReq(o, data) => o < WORD && |data| == PAGE_SIZE
    case LoadReq(o) => o < WORD
    case FreeReq(o) => o < WORD
    case _ => true
  }

  datatype Reply =
    | Granted(offset: nat) | Refused          // ALLOC
    | Done | Failed                           // STORE, FREE
    | Found(page: Page) | Missing             // LOAD
    | Usage(used: nat, total: nat)            // STATUS

  /** A direct call on the page store. */
  function Perform(s: Store, r: Request): (Store, Reply) {
    match r
    case AllocReq =>
      if s.used >= s.max then (s, Refused)
      else (s.(used := s.used + 1, next := (s.next + 1) % WORD), Granted(s.next))
    case StoreReq(o, data) =>
      if |s.pages| >= s.max && o !in s.pages then (s, Failed)
      else (s.(pages := s.pages[o := data]), Done)
    case LoadReq(o) => (s, if o in s.pages then Found(s.pages[o]) else Missing)
    case FreeReq(o) =>
      if o in s.pages then (s.(pages := s.pages - {o}, used := (s.used + WORD - 1) % WORD), Done)
      else (s, Failed)
    case StatusReq => (s, Usage(s.used, s.max))
  }

  function PerformAll(s: Store, rs: seq<Request>): (Store, seq<Reply>)
    decreases |rs|
  {
    if rs == [] then (s, [])
    else
      var (s1, reply) := Perform(s, rs[0]);
      var (s2, replies) := PerformAll(s1, rs[1..]);
      (s2, [reply] + replies)
  }

  // ------------------------------------------------------------ bytes on the wire

  /** What the client writes. */
  function Encode(r: Request): seq<byte> {
    match r
    case AllocReq => [OP_ALLOC]
    case StoreReq(o, data) => [OP_STORE] + Word(o) + data
    case LoadReq(o) => [OP_LOAD] + Word(o)
    case FreeReq(o) => [OP_FREE] + Word(o)
    case StatusReq => [OP_STATUS]
  }

  function EncodeAll(rs: seq<Request>): seq<byte> {
    if rs == [] then [] else Encode(rs[0]) + EncodeAll(rs[1..])
  }

  const ZEROS: seq<byte> := [0, 0, 0, 0, 0, 0, 0, 0]

  /** What the server writes. A refused ALLOC is nine bytes, like a granted one. */
  function EncodeReply(r: Reply): seq<byte> {
    match r
    case Granted(o) => [RESP_OK] + Word(o)
    case Refused => [RESP_ERR] + ZEROS
    case Done => [RESP_OK]
    case Failed => [RESP_ERR]
    case Found(page) => [RESP_OK] + page
    case Missing => [RESP_ERR]
    case Usage(used, total) => [RESP_OK] + Word(used) + Word(total)
  }

  function EncodeReplies(rs: seq<Reply>): seq<byte> {
    if rs == [] then [] else EncodeReply(rs[0]) + EncodeReplies(rs[1..])
  }

  datatype Parsed = Parsed(request: Request, rest: seq<byte>) | Unknown(rest: seq<byte>) | Short

  /** One request off the front of the stream, as `handle_client` reads it. */
  function Parse(s: seq<byte>): (p: Parsed)
    ensures !p.Short? ==> |p.rest| < |s|
  {
    if s == [] then Short
    else if s[0] == OP_ALLOC then Parsed(AllocReq, s[1..])
    else if s[0] == OP_STORE then
      if |s| < 9 + PAGE_SIZE then Short
      else Parsed(StoreReq(FromLe(s[1..9]), s[9..9 + PAGE_SIZE]), s[9 + PAGE_SIZE..])
    else if s[0] == OP_LOAD then
      if |s| < 9 then Short else Parsed(LoadReq(FromLe(s[1..9])), s[9..])
    else if s[0] == OP_FREE then
      if |s| < 9 then Short else Parsed(FreeReq(FromLe(s[1..9])), s[9..])
    else if s[0] == OP_STATUS then Parsed(StatusReq, s[1..])
    else Unknown(s[1..])
  }

  /** The session: requests are performed and answered until the stream ends or breaks off. */
  function Serve(store: Store, input: seq<byte>): (Store, seq<byte>)
    decreases |input|
  {
    match Parse(input)
    case Short => (store, [])
    case Unknown(rest) =>
      var (store', output) := Serve(store, rest);
      (store', [RESP_ERR] + output)
    case Parsed(r, rest) =>
      var (store1, reply) := Perform(store, r);
      var (store', output) := Serve(store1, rest);
      (store', EncodeReply(reply) + output)
  }

  /** The reply to `r` off the front of the stream, as the client reads it (or would, for STATUS, which it never sends). */
  function ReadReply(r: Request, s: seq<byte>): Option<(Reply, seq<byte>)> {
    match r
    case AllocReq =>
      if |s| < 9 then None
      else if s[0] != RESP_OK then Some((Refused, s[9..]))
      else Some((Granted(FromLe(s[1..9])), s[9..]))
    case StoreReq(_, _) => ReadStatus(s)
    case FreeReq(_) => ReadStatus(s)
    case LoadReq(_) =>
      if |s| < 1 then None
      else if s[0] != RESP_OK then Some((Missing, s[1..]))
      else if |s| < 1 + PAGE_SIZE then None
      else Some((Found(s[1..1 + PAGE_SIZE]), s[1 + PAGE_SIZE..]))
    case StatusReq =>
      if |s| < 17 then None else Some((Usage(FromLe(s[1..9]), FromLe(s[9..17])), s[17..]))
  }

  function ReadStatus(s: seq<byte>): Option<(Reply, seq<byte>)> {
    if |s| < 1 then None else Some((if s[0] == RESP_OK then Done else Failed, s[1..]))
  }

  function ReadAll(rs: seq<Request>, s: seq<byte>): Option<(seq<Reply>, seq<byte>)>
    decreases |rs|
  {
    if rs == [] then Some(([], s))
    else match ReadReply(rs[0], s)
      case None => None
      case Some((reply, rest)) =>
        match ReadAll(rs[1..], rest)
        case None => None
        case Some((replies, left)) => Some(([reply] + replies, left))
  }

  // ------------------------------------------------------------ round trips

  /** The server reads back exactly the request the client wrote, and nothing after it. */
  lemma ParseEncoded(r: Request, rest: seq<byte>)
    requires ValidRequest(r)
    ensures Parse(Encode(r) + rest) == Parsed(r, rest)
  {
    var s := Encode(r) + rest;
    match r
    case AllocReq => assert s[1..] == rest;
    case StatusReq => assert s[1..] == rest;
    case StoreReq(o, data) =>
      WordRoundTrip(o);
      assert s[1..9] == Word(o) && s[9..9 + PAGE_SIZE] == data && s[9 + PAGE_SIZE..] == rest;
    case LoadReq(o) =>
      WordRoundTrip(o);
      assert s[1..9] == Word(o) && s[9..] == rest;
    case FreeReq(o) =>
      WordRoundTrip(o);
      assert s[1..9] == Word(o) && s[9..] == rest;
  }

  lemma PerformValid(s: Store, r: Request)
    requires ValidStore(s) && ValidRequest(r)
    ensures ValidStore(Perform(s, r).0)
  {
  }

  /** The client reads exactly the bytes the server wrote for its request, whatever the outcome. */
  lemma ReadEncodedReply(s: Store, r: Request, rest: seq<byte>)
    requires ValidStore(s) && ValidRequest(r)
    ensures var reply := Perform(s, r).1; ReadReply(r, EncodeReply(reply) + rest) == Some((reply, rest))
  {
    var reply := Perform(s, r).1;
    var bytes := EncodeReply(reply) + rest;
    match r
    case AllocReq =>
      assert bytes[9..] == rest;
      if reply.Granted? {
        WordRoundTrip(reply.offset);
        assert bytes[1..9] == Word(reply.offset);
      }
    case StoreReq(_, _) => assert bytes[1..] == rest;
    case FreeReq(_) => assert bytes[1..] == rest;
    case LoadReq(o) =>
      if reply.Found? {
        assert bytes[1..1 + PAGE_SIZE] == reply.page && bytes[1 + PAGE_SIZE..] == rest;
      } else {
        assert bytes[1..] == rest;
      }
    case StatusReq =>
      WordRoundTrip(s.used);
      WordRoundTrip(s.max);
      assert bytes[1..9] == Word(s.used) && bytes[9..17] == Word(s.max) && bytes[17..] == rest;
  }

  /** Serving the encoded requests performs exactly them and answers each. */
  lemma {:induction false} ServeIsPerform(s: Store, rs: seq<Request>)
    requires ValidStore(s) && forall r | r in rs :: ValidRequest(r)
    ensures Serve(s, EncodeAll(rs)) == (PerformAll(s, rs).0, EncodeReplies(PerformAll(s, rs).1))
    decreases |rs|
  {
    if rs != [] {
      var (s1, reply) := Perform(s, rs[0]);
      PerformValid(s, rs[0]);
      ServeIsPerform(s1, rs[1..]);
      ParseEncoded(rs[0], EncodeAll(rs[1..]));
      var replies := PerformAll(s1, rs[1..]).1;
      assert ([reply] + replies)[1..] == replies;
    }
  }

  /** The client, reading the answers in turn, takes exactly the bytes of each. */
  lemma {:induction false} RepliesRead(s: Store, rs: seq<Request>, rest: seq<byte>)
    requires ValidStore(s) && forall r | r in rs :: ValidRequest(r)
    ensures ReadAll(rs, EncodeReplies(PerformAll(s, rs).1) + rest) == Some((PerformAll(s, rs).1, rest))
    decreases |rs|
  {
    hide Perform, EncodeReply, ReadReply, ValidStore, ValidRequest;
    if rs == [] {
      assert EncodeReplies([]) + rest == rest;
    } else {
      var (s1, reply) := Perform(s, rs[0]);
      var replies := PerformAll(s1, rs[1..]).1;
      PerformValid(s, rs[0]);
      RepliesRead(s1, rs[1..], rest);
      ReadEncodedReply(s, rs[0], EncodeReplies(replies) + rest);
      assert ([reply] + replies)[1..] == replies;
      assert EncodeReplies([reply] + replies) + rest == EncodeReply(reply) + (EncodeReplies(replies) + rest);
    }
  }

  /**
   Operations over the wire are direct calls on the page store: the server ends in the
   state they lead to, and the client reads their results, with no byte left over.
   */
  lemma RemoteIsDirect(s: Store, rs: seq<Request>)
    requires ValidStore(s) && forall r | r in rs :: ValidRequest(r)
    ensures
      var (s', replies) := PerformAll(s, rs);
      && Serve(s, EncodeAll(rs)).0 == s'
      && ReadAll(rs, Serve(s, EncodeAll(rs)).1) == Some((replies, []))
  {
    hide Serve, ReadAll;
    ServeIsPerform(s, rs);
    RepliesRead(s, rs, []);
    var output := EncodeReplies(PerformAll(s, rs).1);
    assert output + [] == output;
  }

  // ------------------------------------------------------------ the server's code

  class PageStore {
    const max: nat
    var used: nat
    var next: nat
    var pages: map<nat, Page>

    constructor (max: nat)
      ensures View() == Store(max, 0, 0, map[])
    {
      this.max, used, next, pages := max, 0, 0, map[];
    }

    ghost function View(): Store
      reads this
    {
      Store(max, used, next, pages)
    }

    /** The compare-and-swap loop of one undisturbed client goes round once. */
    method AllocOffset() returns (r: Reply)
      modifies this`used, this`next
      ensures (View(), r) == Perform(old(View()), AllocReq)
    {
      if used >= max {
        return Refused;
      }
      used := used + 1;
      r := Granted(next);
      next := (next + 1) % WORD;
    }

    method StorePage(offset: nat, data: Page) returns (r: Reply)
      modifies this`pages
      ensures (View(), r) == Perform(old(View()), StoreReq(offset, data))
    {
      if |pages| >= max && offset !in pages {
        return Failed;
      }
      pages := pages[offset := data];
      r := Done;
    }

    method LoadPage(offset: nat) returns (r: Reply)
      ensures (View(), r) == Perform(View(), LoadReq(offset))
    {
      r := if offset in pages then Found(pages[offset]) else Missing;
    }

    method FreePage(offset: nat) returns (r: Reply)
      modifies this`pages, this`used
      ensures (View(), r) == Perform(old(View()), FreeReq(offset))
    {
      if offset in pages {
        pages := pages - {offset};
        used := (used + WORD - 1) % WORD;
        r := Done;
      } else {
        r := Failed;
      }
    }

    /** One turn of the session loop: `taken` bytes are read (none if the stream breaks off), `resp` is written. */
    method Turn(input: seq<byte>) returns (taken: nat, resp: seq<byte>)
      modifies this
      ensures taken <= |input|
      ensures match Parse(input)
        case Short => taken == 0 && resp == [] && View() == old(View())
        case Unknown(rest) => taken > 0 && rest == input[taken..] && resp == [RESP_ERR] && View() == old(View())
        case Parsed(r, rest) =>
          && taken > 0 && rest == input[taken..]
          && View() == Perform(old(View()), r).0
          && resp == EncodeReply(Perform(old(View()), r).1)
    {
      hide FromLe, Perform;
      taken, resp := 0, [];
      if |input| == 0 {
        return;
      }
      var op := input[0];
      if op == OP_ALLOC {
        var r := AllocOffset();
        taken, resp := 1, EncodeReply(r);
      } else if op == OP_STORE {
        if |input| >= 9 + PAGE_SIZE {
          var r := StorePage(FromLe(input[1..9]), input[9..9 + PAGE_SIZE]);
          taken, resp := 9 + PAGE_SIZE, EncodeReply(r);
        }
      } else if op == OP_LOAD {
        if |input| >= 9 {
          var r := LoadPage(FromLe(input[1..9]));
          taken, resp := 9, EncodeReply(r);
        }
      } else if op == OP_FREE {
        if |input| >= 9 {
          var r := FreePage(FromLe(input[1..9]));
          taken, resp := 9, EncodeReply(r);
        }
      } else if op == OP_STATUS {
        taken, resp := 1, EncodeReply(Usage(used, max));
        assert (View(), Usage(used, max)) == Perform(View(), StatusReq) by { StatusIs(View()); }
      } else {
        taken, resp := 1, [RESP_ERR];
      }
    }

    /** The whole session, for any bytes a client may send. */
    method HandleClient(input: seq<byte>) returns (output: seq<byte>)
      modifies this
      ensures (View(), output) == Serve(old(View()), input)
    {
      hide Parse, Perform, EncodeReply;
      var pos := 0;
      output := [];
      while true
        invariant pos <= |input|
        invariant Serve(old(View()), input).0 == Serve(View(), input[pos..]).0
        invariant Serve(old(View()), input).1 == output + Serve(View(), input[pos..]).1
        decreases |input| - pos
      {
        var rest := input[pos..];
        var taken, resp := Turn(rest);
        if taken == 0 {
          assert Serve(View(), rest).1 == [] && output + [] == output;
          return;
        }
        assert rest[taken..] == input[pos + taken..];
        output := output + resp;
        pos := pos + taken;
      }
    }
  }

  lemma StatusIs(s: Store)
    ensures Perform(s, StatusReq) == (s, Usage(s.used, s.max))
  {
  }
}
