/**
 The user-space request and completion rings: an array, two masked indices, and one
 slot always left empty. They are bounded first-in first-out queues holding one entry
 less than their capacity (a ring of capacity one holds nothing).
 */
module Ring {
  import opened Bits
  import opened Pages

  function Occupied(read: nat, write: nat, cap: nat): nat
    requires read < cap && write < cap
  {
    if write >= read then write - read else cap - read + write
  }

  /** The `n` entries from `read` on, around the ring. */
  function Window<T>(entries: seq<T>, read: nat, n: nat): (w: seq<T>)
    requires read < |entries| && n <= |entries|
    ensures |w| == n && forall i | 0 <= i < n :: w[i] == entries[Wrap(read + i, |entries|)]
  {
    if n == 0 then [] else Window(entries, read, n - 1) + [entries[Wrap(read + n - 1, |entries|)]]
  }

  class SpscRing<T> {
    const entries: array<T>
    var writeIdx: nat
    var readIdx: nat

    ghost predicate Valid()
      reads this
    {
      IsPow2(entries.Length) && writeIdx < entries.Length && readIdx < entries.Length
    }

    ghost function Contents(): seq<T>
      requires Valid()
      reads this, entries
    {
      Window(entries[..], readIdx, Occupied(readIdx, writeIdx, entries.Length))
    }

    /** A capacity that is not a power of two makes the source's constructor panic. */
    constructor (capacity: nat, zero: T)
      requires IsPow2(capacity)
      ensures Valid() && entries.Length == capacity && Contents() == [] && fresh(entries)
    {
      entries := new T[capacity](_ => zero);
      writeIdx, readIdx := 0, 0;
    }

    /** Fails exactly when one entry less than the capacity is held. */
    method TryPush(x: T) returns (ok: bool)
      requires Valid()
      modifies this`writeIdx, entries
      ensures Valid()
      ensures ok <==> |old(Contents())| + 1 < entries.Length
      ensures Contents() == if ok then old(Contents()) + [x] else old(Contents())
    {
      AdvanceWraps(writeIdx, entries.Length);
      ghost var n := Occupied(readIdx, writeIdx, entries.Length);
      assert writeIdx == Wrap(readIdx + n, entries.Length);
      var next := Advance(writeIdx, entries.Length);
      if next == readIdx {
        return false;
      }
      assert Occupied(readIdx, next, entries.Length) == n + 1;
      entries[writeIdx] := x;
      writeIdx := next;
      ok := true;
      assert entries[..] == old(entries[..])[old(writeIdx) := x];
      WindowPush(old(entries[..]), readIdx, n, x);
    }

    method TryPop() returns (r: Option<T>)
      requires Valid()
      modifies this`readIdx
      ensures Valid()
      ensures r.None? <==> old(Contents()) == []
      ensures r.Some? ==> old(Contents()) == [r.value] + Contents()
      ensures r.None? ==> Contents() == []
    {
      if readIdx == writeIdx {
        return None;
      }
      AdvanceWraps(readIdx, entries.Length);
      WindowPop(entries[..], readIdx, Occupied(readIdx, writeIdx, entries.Length));
      r := Some(entries[readIdx]);
      readIdx := Advance(readIdx, entries.Length);
    }

    /** Appends the oldest entries to `buf`, up to `max` of them. */
    method PopBatch(buf: seq<T>, max: nat) returns (buf': seq<T>, count: nat)
      requires Valid()
      modifies this`readIdx
      ensures Valid()
      ensures count == if |old(Contents())| < max then |old(Contents())| else max
      ensures buf' == buf + old(Contents())[..count] && Contents() == old(Contents())[count..]
    {
      hide SpscRing.Contents;
      buf', count := buf, 0;
      while count < max
        invariant Valid() && count <= max && count <= |old(Contents())|
        invariant buf' == buf + old(Contents())[..count] && Contents() == old(Contents())[count..]
        modifies this`readIdx
      {
        var r := TryPop();
        if r.None? {
          break;
        }
        buf' := buf' + [r.value];
        count := count + 1;
      }
    }

    method Len() returns (n: nat)
      requires Valid()
      ensures n == |Contents()| && n < entries.Length
    {
      if writeIdx >= readIdx {
        n := writeIdx - readIdx;
      } else {
        n := entries.Length - readIdx + writeIdx;
      }
    }

    /** Any sequence of pushes and pops on an empty ring: what went in comes out, in order. */
    method Execute(ops: seq<Op<T>>) returns (accepted: seq<T>, out: seq<T>)
      requires Valid() && Contents() == []
      modifies this`writeIdx, this`readIdx, entries
      ensures Valid() && Trace(Contents(), accepted, out) == DoAll(entries.Length, ops)
      ensures accepted == out + Contents()
    {
      hide SpscRing.Contents;
      accepted, out := [], [];
      var k := 0;
      while k < |ops|
        invariant k <= |ops| && Valid() && Trace(Contents(), accepted, out) == DoAll(entries.Length, ops[..k])
      {
        assert ops[..k + 1][..k] == ops[..k];
        match ops[k] {
          case Push(x) =>
            var ok := TryPush(x);
            if ok {
              accepted := accepted + [x];
            }
          case Pop =>
            var r := TryPop();
            if r.Some? {
              out := out + [r.value];
            }
        }
        k := k + 1;
      }
      assert ops[..k] == ops;
      FirstInFirstOut(entries.Length, ops);
    }

    method IsEmpty() returns (b: bool)
      requires Valid()
      ensures b <==> Contents() == []
    {
      b := writeIdx == readIdx;
    }
  }

  lemma WindowPush<T>(entries: seq<T>, read: nat, n: nat, x: T)
    requires read < |entries| && n < |entries|
    ensures Window(entries[Wrap(read + n, |entries|) := x], read, n + 1) == Window(entries, read, n) + [x]
  {
    var a, b := Window(entries[Wrap(read + n, |entries|) := x], read, n + 1), Window(entries, read, n) + [x];
    assert forall i | 0 <= i < n + 1 :: a[i] == b[i];
    assert a == b;
  }

  lemma WindowPop<T>(entries: seq<T>, read: nat, n: nat)
    requires read < |entries| && 0 < n <= |entries|
    ensures Window(entries, read, n) == [entries[read]] + Window(entries, Wrap(read + 1, |entries|), n - 1)
  {
    var a, b := Window(entries, read, n), [entries[read]] + Window(entries, Wrap(read + 1, |entries|), n - 1);
    assert forall i | 0 <= i < n :: a[i] == b[i];
    assert a == b;
  }

  // ------------------------------------------------------------ any run of the queue

  datatype Op<T> = Push(x: T) | Pop

  /** What is held, what was accepted, and what came out, oldest first. */
  datatype Trace<T> = Trace(held: seq<T>, pushed: seq<T>, popped: seq<T>)

  function Do<T>(cap: nat, t: Trace<T>, op: Op<T>): Trace<T> {
    match op
    case Push(x) => if |t.held| + 1 < cap then t.(held := t.held + [x], pushed := t.pushed + [x]) else t
    case Pop => if t.held == [] then t else t.(held := t.held[1..], popped := t.popped + [t.held[0]])
  }

  function DoAll<T>(cap: nat, ops: seq<Op<T>>): Trace<T> {
    if ops == [] then Trace([], [], []) else Do(cap, DoAll(cap, ops[..|ops| - 1]), ops[|ops| - 1])
  }

  /** Everything accepted comes out once, in order, with the rest still held; the ring is never over its bound. */
  lemma {:induction false} FirstInFirstOut<T>(cap: nat, ops: seq<Op<T>>)
    requires cap > 0
    ensures var t := DoAll(cap, ops); t.pushed == t.popped + t.held && |t.held| < cap
    decreases |ops|
  {
    if ops != [] {
      FirstInFirstOut(cap, ops[..|ops| - 1]);
    }
  }
}
