/**
 Whole runs of the engine over backends that fail in any pattern: what a
 successful load returns. Every engine call is a step of the lossy page map, so it
 is enough to look at runs of that.
 */
module LossyRuns {
  import opened Pages

  datatype Call =
    | StoreCall(offset: nat, data: Page, ok: bool)
    | LoadCall(offset: nat, answer: Result<Page>)
    | InvalidateCall(offset: nat)

  predicate CallStep(m: map<nat, Page>, c: Call, m': map<nat, Page>) {
    match c
    case StoreCall(o, data, ok) => LossyStore(m, o, data, ok, m')
    case LoadCall(o, r) => LossyLoad(m, o, r) && m' == m
    case InvalidateCall(o) => Forgets(m, m') && o !in m'
  }

  /** A run from a fresh engine: `ms[k + 1]` is what `calls[k]` makes of `ms[k]`. */
  predicate CallRun(ms: seq<map<nat, Page>>, calls: seq<Call>) {
    && |ms| == |calls| + 1 && ms[0] == map[]
    && forall k | 0 <= k < |calls| :: CallStep(ms[k], calls[k], ms[k + 1])
  }

  /** The last of the first `n` calls that stored to or invalidated `o`. */
  function LastChange(calls: seq<Call>, n: nat, o: nat): (r: Option<nat>)
    requires n <= |calls|
    ensures r.Some? ==> r.value < n && !calls[r.value].LoadCall? && calls[r.value].offset == o
    ensures forall j | (if r.Some? then r.value else -1) < j < n :: calls[j].LoadCall? || calls[j].offset != o
  {
    if n == 0 then None
    else if !calls[n - 1].LoadCall? && calls[n - 1].offset == o then Some(n - 1)
    else LastChange(calls, n - 1, o)
  }

  /** What the map holds after `n` calls is what the last change stored, and that change was a store that succeeded. */
  lemma {:induction false} HeldIsLastStored(ms: seq<map<nat, Page>>, calls: seq<Call>, n: nat, o: nat)
    requires CallRun(ms, calls) && n <= |calls| && o in ms[n]
    ensures var w := LastChange(calls, n, o);
            w.Some? && calls[w.value] == StoreCall(o, ms[n][o], true)
  {
    if n != 0 {
      assert CallStep(ms[n - 1], calls[n - 1], ms[n]);
      if calls[n - 1].LoadCall? || calls[n - 1].offset != o {
        assert calls[n - 1].StoreCall? ==> o in ms[n] - {calls[n - 1].offset};
        HeldIsLastStored(ms, calls, n - 1, o);
      }
    }
  }

  /** A load that succeeds returns the argument of the last store to its offset, which succeeded. */
  lemma LoadReturnsLastStore(ms: seq<map<nat, Page>>, calls: seq<Call>, n: nat)
    requires CallRun(ms, calls) && n < |calls| && calls[n].LoadCall? && calls[n].answer.Ok?
    ensures var w := LastChange(calls, n, calls[n].offset);
            w.Some? && calls[w.value] == StoreCall(calls[n].offset, calls[n].answer.value, true)
  {
    assert CallStep(ms[n], calls[n], ms[n + 1]);
    HeldIsLastStored(ms, calls, n, calls[n].offset);
  }
}
