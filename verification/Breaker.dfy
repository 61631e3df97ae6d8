/**
 The TCP backend's connection and its circuit breaker, over runs of timed calls.

 Connection attempts are bounded over any stretch of time, by the connections made and
 the unusable attempts in it; while a server cannot be reached that is five, and one
 more for every five seconds. A server that accepts connections and refuses requests,
 or an address that does not parse, is retried on every call, and nothing else is.
 */
module Breaker {
  import opened Pages

  const MAX_FAILURES: nat := 5
  const BACKOFF: nat := 5000 // milliseconds

  /** `last` is when the last attempt to connect was made. */
  datatype Conn = Conn(stream: bool, failures: nat, last: Option<nat>)

  /** What an attempt comes to. An unusable one fails without being counted: the address does not parse, or the new socket takes no options. */
  datatype Connect = Connected | Unreachable | Unusable

  /** A call at `now`, what connecting would come to, and whether the operation succeeds on the stream. */
  datatype Event = Event(now: nat, connect: Connect, served: bool)

  predicate Open(c: Conn, now: nat) {
    && c.failures >= MAX_FAILURES
    && c.last.Some? && now < c.last.value + BACKOFF
  }

  predicate Attempt(c: Conn, e: Event) {
    !c.stream && !Open(c, e.now)
  }

  function Reconnect(c: Conn, e: Event): Conn {
    if Open(c, e.now) then c
    else match e.connect
      case Connected => Conn(true, 0, Some(e.now))
      case Unreachable => Conn(c.stream, c.failures + 1, Some(e.now))
      case Unusable => c.(last := Some(e.now))
  }

  function Call(c: Conn, e: Event): Conn {
    var c := if c.stream then c else Reconnect(c, e);
    if !c.stream then c
    else if e.served then c.(failures := 0)
    else Conn(false, c.failures + 1, c.last)
  }

  /** A call succeeds when there is a stream, or one can be made, and the operation succeeds on it. */
  predicate Succeeds(c: Conn, e: Event) {
    e.served && (c.stream || (Attempt(c, e) && e.connect == Connected))
  }

  function Run(c: Conn, es: seq<Event>): Conn
    decreases |es|
  {
    if es == [] then c else Run(Call(c, es[0]), es[1..])
  }

  /** How many of the calls try to connect. */
  function Attempts(c: Conn, es: seq<Event>): nat
    decreases |es|
  {
    if es == [] then 0
    else (if Attempt(c, es[0]) then 1 else 0) + Attempts(Call(c, es[0]), es[1..])
  }

  /** The calls are made in order, between `start` and `end`. */
  predicate Within(es: seq<Event>, start: nat, end: nat)
    decreases |es|
  {
    start <= end && (es != [] ==> start <= es[0].now <= end && Within(es[1..], es[0].now, end))
  }

  // ------------------------------------------------------------ the code

  class Connection {
    var stream: bool
    var failures: nat
    var last: Option<nat>

    constructor ()
      ensures View() == Conn(false, 0, None)
    {
      stream, failures, last := false, 0, None;
    }

    ghost function View(): Conn
      reads this
    {
      Conn(stream, failures, last)
    }

    method TryReconnect(e: Event) returns (ok: bool)
      requires !stream
      modifies this
      ensures View() == Reconnect(old(View()), e)
      ensures ok == stream == (Attempt(old(View()), e) && e.connect == Connected)
    {
      if failures >= MAX_FAILURES && last.Some? && e.now - last.value < BACKOFF {
        return false;
      }
      last := Some(e.now);
      match e.connect
      case Unusable => ok := false;
      case Connected =>
        stream, failures := true, 0;
        ok := true;
      case Unreachable =>
        failures := failures + 1;
        ok := false;
    }

    method WithStream(e: Event) returns (ok: bool)
      modifies this
      ensures View() == Call(old(View()), e)
      ensures ok == Succeeds(old(View()), e)
    {
      if !stream {
        var connected := TryReconnect(e);
        if !connected {
          return false;
        }
      }
      if e.served {
        failures := 0;
      } else {
        stream := false;
        failures := failures + 1;
      }
      ok := e.served;
    }
  }

  // ------------------------------------------------------------ every run

  /** A live stream has no failures behind it: the failures counted are those since it was lost. */
  lemma {:induction false} LiveMeansNoFailures(c: Conn, es: seq<Event>)
    requires c.stream ==> c.failures == 0
    ensures Run(c, es).stream ==> Run(c, es).failures == 0
    decreases |es|
  {
    if es != [] {
      LiveMeansNoFailures(Call(c, es[0]), es[1..]);
    }
  }

  /** How many of the attempts connect, and how many are unusable. */
  function Connects(c: Conn, es: seq<Event>): nat
    decreases |es|
  {
    if es == [] then 0
    else (if Attempt(c, es[0]) && es[0].connect == Connected then 1 else 0) + Connects(Call(c, es[0]), es[1..])
  }

  function Unusables(c: Conn, es: seq<Event>): nat
    decreases |es|
  {
    if es == [] then 0
    else (if Attempt(c, es[0]) && es[0].connect == Unusable then 1 else 0) + Unusables(Call(c, es[0]), es[1..])
  }

  /** The attempts that neither a connection made nor an unusable address accounts for. */
  function Excess(c: Conn, es: seq<Event>): int {
    Attempts(c, es) - MAX_FAILURES * Connects(c, es) - Unusables(c, es)
  }

  lemma ExcessStep(c: Conn, es: seq<Event>)
    requires es != []
    ensures Excess(c, es) == Excess(Call(c, es[0]), es[1..]) +
      if !Attempt(c, es[0]) || es[0].connect == Unusable then 0
      else if es[0].connect == Connected then 1 - MAX_FAILURES else 1
  {
  }

  /** Attempts left before the breaker opens, if connecting keeps failing. */
  function Budget(c: Conn): nat {
    if c.stream then MAX_FAILURES - 1
    else if c.failures < MAX_FAILURES then MAX_FAILURES - c.failures
    else 1
  }

  predicate Tripped(c: Conn) {
    !c.stream && c.failures >= MAX_FAILURES && c.last.Some?
  }

  /** Once the breaker is open, an attempt is a whole backoff after the one before it. */
  lemma {:induction false} OnceOpen(c: Conn, es: seq<Event>, start: nat, end: nat)
    requires Tripped(c) && c.last.value <= end && Within(es, start, end)
    ensures BACKOFF * Excess(c, es) <= end - c.last.value
    decreases |es|
  {
    hide Excess;
    if es == [] {
      assert Excess(c, es) == 0 by { NoExcess(c); }
    } else {
      var c' := Call(c, es[0]);
      ExcessStep(c, es);
      if Tripped(c') {
        OnceOpen(c', es[1..], es[0].now, end);
      } else {
        Rate(c', es[1..], es[0].now, end);
      }
    }
  }

  lemma NoExcess(c: Conn)
    ensures Excess(c, []) == 0
  {
  }

  lemma {:induction false} Rate(c: Conn, es: seq<Event>, start: nat, end: nat)
    requires Within(es, start, end)
    ensures BACKOFF * (Excess(c, es) - Budget(c)) <= end - start
    decreases |es|
  {
    hide Excess;
    if es == [] {
      NoExcess(c);
    } else {
      var c' := Call(c, es[0]);
      ExcessStep(c, es);
      if Attempt(c, es[0]) && Tripped(c') {
        OnceOpen(c', es[1..], es[0].now, end);
      } else {
        Rate(c', es[1..], es[0].now, end);
      }
    }
  }

  /**
   Whatever came before and whatever the attempts come to, any stretch of `end - start`
   milliseconds sees at most five attempts, five more for each connection made in it,
   one for each unusable attempt, and one for each whole backoff.
   */
  lemma AttemptsBounded(c: Conn, es: seq<Event>, start: nat, end: nat)
    requires Within(es, start, end)
    ensures Attempts(c, es) <= 5 * (1 + Connects(c, es)) + Unusables(c, es) + (end - start) / 5000
  {
    Rate(c, es, start, end);
  }

  lemma {:induction false} NoneCounted(c: Conn, es: seq<Event>)
    requires forall e | e in es :: e.connect == Unreachable
    ensures Connects(c, es) == 0 && Unusables(c, es) == 0
    decreases |es|
  {
    if es != [] {
      NoneCounted(Call(c, es[0]), es[1..]);
    }
  }

  /** So while the server stays unreachable there are five, and one more for each whole backoff. */
  lemma UnreachableBounded(c: Conn, es: seq<Event>, start: nat, end: nat)
    requires Within(es, start, end) && forall e | e in es :: e.connect == Unreachable
    ensures Attempts(c, es) <= 5 + (end - start) / 5000
  {
    AttemptsBounded(c, es, start, end);
    NoneCounted(c, es);
  }

  // ------------------------------------------------------------ the bound is met

  function Burst(n: nat, now: nat): (es: seq<Event>)
    ensures |es| == n
    ensures forall e | e in es :: e.connect == Unreachable
  {
    if n == 0 then [] else [Event(now, Unreachable, true)] + Burst(n - 1, now)
  }

  /** One call each backoff after `now`. */
  function Beats(n: nat, now: nat): (es: seq<Event>)
    ensures |es| == n
    ensures forall e | e in es :: e.connect == Unreachable
    ensures Within(es, now, now + n * BACKOFF)
  {
    if n == 0 then []
    else [Event(now + BACKOFF, Unreachable, true)] + Beats(n - 1, now + BACKOFF)
  }

  lemma {:induction false} BeatsAttempt(c: Conn, n: nat, now: nat)
    requires !c.stream && c.last == Some(now)
    ensures Attempts(c, Beats(n, now)) == n
    decreases n
  {
    if n != 0 {
      var es := Beats(n, now);
      assert es[1..] == Beats(n - 1, now + BACKOFF);
      BeatsAttempt(Call(c, es[0]), n - 1, now + BACKOFF);
    }
  }

  lemma {:induction false} BurstThenBeats(c: Conn, k: nat, n: nat, now: nat)
    requires !c.stream && c.failures + k == MAX_FAILURES && (k == 0 ==> c.last == Some(now))
    ensures
      var es := Burst(k, now) + Beats(n, now);
      && Attempts(c, es) == k + n
      && Within(es, now, now + n * BACKOFF)
    decreases k
  {
    var es := Burst(k, now) + Beats(n, now);
    if k == 0 {
      assert es == Beats(n, now);
      BeatsAttempt(c, n, now);
    } else {
      assert es[1..] == Burst(k - 1, now) + Beats(n, now);
      BurstThenBeats(Call(c, es[0]), k - 1, n, now);
    }
  }

  /** The bound is exact: for every `n` some run of a fresh connection meets it over `n` backoffs. */
  lemma BoundIsMet(n: nat) returns (es: seq<Event>)
    ensures Within(es, 0, n * 5000) && forall e | e in es :: e.connect == Unreachable
    ensures Attempts(Conn(false, 0, None), es) == 5 + n
  {
    es := Burst(MAX_FAILURES, 0) + Beats(n, 0);
    BurstThenBeats(Conn(false, 0, None), MAX_FAILURES, n, 0);
  }

  /** The time remembered is that of the last attempt, whatever it came to. */
  lemma {:induction false} LastIsAttempt(c: Conn, es: seq<Event>)
    requires es != [] && Attempt(c, es[0]) && Attempts(c, es) == 1
    ensures Run(c, es).last == Some(es[0].now)
  {
    NoAttemptKeeps(Call(c, es[0]), es[1..]);
  }

  lemma {:induction false} NoAttemptKeeps(c: Conn, es: seq<Event>)
    requires Attempts(c, es) == 0
    ensures Run(c, es).last == c.last
    decreases |es|
  {
    if es != [] {
      NoAttemptKeeps(Call(c, es[0]), es[1..]);
    }
  }

  // ------------------------------------------------------------ when the breaker trips

  lemma {:induction false} BurstAttempts(c: Conn, n: nat, now: nat)
    requires !c.stream && c.failures <= 5 && (c.failures == 5 ==> c.last == Some(now))
    ensures Attempts(c, Burst(n, now)) == if n <= 5 - c.failures then n else 5 - c.failures
    decreases n
  {
    if n != 0 {
      assert Burst(n, now)[1..] == Burst(n - 1, now);
      BurstAttempts(Call(c, Burst(n, now)[0]), n - 1, now);
    }
  }

  /**
   Exactly when it trips: a fresh connection to an unreachable server is tried five times
   at one instant, and one that has lost its stream four times, as the lost call counts too.
   */
  lemma TripsAt(c: Conn, e: Event, n: nat)
    requires c.stream && c.failures == 0 && !e.served
    ensures Attempts(Conn(false, 0, None), Burst(n, e.now)) == if n <= 5 then n else 5
    ensures Attempts(c, [e] + Burst(n, e.now)) == if n <= 4 then n else 4
  {
    BurstAttempts(Conn(false, 0, None), n, e.now);
    assert ([e] + Burst(n, e.now))[1..] == Burst(n, e.now);
    BurstAttempts(Call(c, e), n, e.now);
  }

  // ------------------------------------------------------------ where there is no bound

  /** A server that takes connections and serves nothing, or an address no attempt can use, never opens the breaker. */
  predicate NeverCounted(e: Event) {
    e.connect == Unusable || (e.connect == Connected && !e.served)
  }

  /** Then every call attempts a connection, however fast the calls come. */
  lemma {:induction false} EveryCallAttempts(c: Conn, es: seq<Event>)
    requires !c.stream && c.failures < MAX_FAILURES
    requires forall e | e in es :: NeverCounted(e)
    ensures Attempts(c, es) == |es|
    decreases |es|
  {
    if es != [] {
      assert NeverCounted(es[0]);
      EveryCallAttempts(Call(c, es[0]), es[1..]);
    }
  }

  function Repeated(e: Event, n: nat): (es: seq<Event>)
    ensures |es| == n && (forall x | x in es :: x == e) && Within(es, e.now, e.now)
  {
    if n == 0 then [] else [e] + Repeated(e, n - 1)
  }

  /** A live stream that keeps serving is never reconnected. */
  lemma {:induction false} ServedStays(c: Conn, es: seq<Event>)
    requires c.stream && forall e | e in es :: e.served
    ensures Attempts(c, es) == 0
    decreases |es|
  {
    if es != [] {
      ServedStays(Call(c, es[0]), es[1..]);
    }
  }

  /**
   Exactly which calls the breaker does not hold back: of more than five calls at one
   instant on a fresh connection, all alike, every one tries to connect if and only if
   what they come to is never counted.
   */
  lemma UnboundedIff(e: Event, n: nat)
    requires n > 5
    ensures Attempts(Conn(false, 0, None), Repeated(e, n)) == n <==> NeverCounted(e)
  {
    var idle, es := Conn(false, 0, None), Repeated(e, n);
    if NeverCounted(e) {
      EveryCallAttempts(idle, es);
    } else if e.connect == Unreachable {
      UnreachableBounded(idle, es, e.now, e.now);
    } else {
      assert es[0] == e;
      ServedStays(Call(idle, e), es[1..]);
    }
  }

  lemma {:induction false} LastWithin(c: Conn, es: seq<Event>, start: nat, end: nat)
    requires Within(es, start, end) && (c.last.Some? ==> c.last.value <= end)
    ensures var c' := Run(c, es); c'.last.Some? ==> c'.last.value <= end
    decreases |es|
  {
    if es != [] {
      LastWithin(Call(c, es[0]), es[1..], es[0].now, end);
    }
  }

  /** After any run, a server that is back serves the first call made a backoff later, and no failure is remembered. */
  lemma Recovers(c: Conn, es: seq<Event>, start: nat, end: nat, e: Event)
    requires Within(es, start, end) && (c.last.Some? ==> c.last.value <= end)
    requires e.now >= end + 5000 && e.connect == Connected && e.served
    ensures Succeeds(Run(c, es), e)
    ensures var c' := Call(Run(c, es), e); c'.stream && c'.failures == 0
  {
    LastWithin(c, es, start, end);
  }
}
