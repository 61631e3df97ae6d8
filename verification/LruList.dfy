/**
 The textbook bounded LRU list, most recent first, and the proof that it has no
 Belady anomaly: a larger list always contains a smaller one fed the same trace.
 */
module LruList {

  datatype Access = Store(offset: nat) | Load(offset: nat) | Invalidate(offset: nat)

  /** Duplicate-free. */
  predicate Distinct(l: seq<nat>) {
    forall i, j | 0 <= i < j < |l| :: l[i] != l[j]
  }

  function Remove(l: seq<nat>, o: nat): (r: seq<nat>)
    ensures forall x :: x in r <==> x in l && x != o
    ensures |r| <= |l|
  {
    if l == [] then [] else if l[0] == o then Remove(l[1..], o) else [l[0]] + Remove(l[1..], o)
  }

  function DropLast(l: seq<nat>): seq<nat> {
    if l == [] then [] else l[..|l| - 1]
  }

  /**
   Stores go to the front, and into a full list push the last one out; loads of
   what is there move it to the front, others change nothing.
   */
  function Next(l: seq<nat>, k: nat, a: Access): seq<nat> {
    match a
    case Store(o) =>
      var m := Remove(l, o);
      if k == 0 then m else [o] + (if |m| < k then m else DropLast(m))
    case Load(o) => if o in l then [o] + Remove(l, o) else l
    case Invalidate(o) => Remove(l, o)
  }

  function Run(k: nat, trace: seq<Access>): seq<nat>
    decreases |trace|
  {
    if trace == [] then [] else Next(Run(k, trace[..|trace| - 1]), k, trace[|trace| - 1])
  }

  // ------------------------------------------------------------ well-formedness

  lemma {:induction false} RemoveAbsent(l: seq<nat>, o: nat)
    requires o !in l
    ensures Remove(l, o) == l
  {
    if l != [] { RemoveAbsent(l[1..], o); }
  }

  lemma PrependDistinct(x: nat, l: seq<nat>)
    requires Distinct(l) && x !in l
    ensures Distinct([x] + l)
  {
  }

  lemma TailDistinct(l: seq<nat>)
    requires Distinct(l) && l != []
    ensures Distinct(l[1..]) && l[0] !in l[1..]
  {
  }

  lemma {:induction false} RemoveDistinct(l: seq<nat>, o: nat)
    requires Distinct(l)
    ensures Distinct(Remove(l, o))
    ensures |Remove(l, o)| == if o in l then |l| - 1 else |l|
  {
    hide Distinct;
    if l == [] {
      EmptyDistinct();
    } else {
      TailDistinct(l);
      RemoveDistinct(l[1..], o);
      if l[0] == o {
        RemoveAbsent(l[1..], o);
      } else {
        PrependDistinct(l[0], Remove(l[1..], o));
      }
    }
  }

  lemma EmptyDistinct()
    ensures Distinct([])
  {
  }

  lemma {:induction false} RunWellFormed(k: nat, trace: seq<Access>)
    ensures Distinct(Run(k, trace)) && |Run(k, trace)| <= k
    decreases |trace|
  {
    if trace != [] {
      var before, a := trace[..|trace| - 1], trace[|trace| - 1];
      RunWellFormed(k, before);
      RemoveDistinct(Run(k, before), a.offset);
    }
  }

  // ------------------------------------------------------------ inclusion

  /** `small` is `big`, or `big` with one element left out. */
  predicate OneMore(small: seq<nat>, big: seq<nat>) {
    small == big || exists i :: 0 <= i < |big| && small == Without(big, i)
  }

  function Without(l: seq<nat>, i: nat): seq<nat>
    requires i < |l|
  {
    l[..i] + l[i + 1..]
  }

  lemma RemoveCons(x: nat, l: seq<nat>, o: nat)
    ensures Remove([x] + l, o) == if x == o then Remove(l, o) else [x] + Remove(l, o)
  {
    assert ([x] + l)[1..] == l;
  }

  lemma {:induction false} RemoveAppend(a: seq<nat>, b: seq<nat>, o: nat)
    ensures Remove(a + b, o) == Remove(a, o) + Remove(b, o)
  {
    if a == [] {
      assert a + b == b;
    } else {
      var x, t := a[0], a[1..];
      assert a == [x] + t && a + b == [x] + (t + b);
      hide Remove;
      RemoveCons(x, t, o);
      RemoveCons(x, t + b, o);
      RemoveAppend(t, b, o);
      assert [x] + (Remove(t, o) + Remove(b, o)) == ([x] + Remove(t, o)) + Remove(b, o);
    }
  }

  /** Removing the same element from both keeps the relation. */
  lemma RemoveOneMore(small: seq<nat>, big: seq<nat>, o: nat)
    requires OneMore(small, big)
    ensures OneMore(Remove(small, o), Remove(big, o))
  {
    hide Remove;
    if small != big {
      var i :| 0 <= i < |big| && small == Without(big, i);
      var front, x, back := big[..i], big[i], big[i + 1..];
      var rf, rb := Remove(front, o), Remove(back, o);
      assert Remove(small, o) == rf + rb by { RemoveAppend(front, back, o); }
      assert Remove(big, o) == rf + (Remove([x], o) + rb) by {
        assert big == front + ([x] + back);
        RemoveAppend(front, [x] + back, o);
        RemoveAppend([x], back, o);
      }
      RemoveSingle(x, o);
      if x == o {
        assert [] + rb == rb;
      } else {
        WithoutMiddle(rf, x, rb);
      }
    }
  }

  lemma RemoveSingle(x: nat, o: nat)
    ensures Remove([x], o) == if x == o then [] else [x]
  {
  }

  lemma WithoutMiddle(a: seq<nat>, x: nat, b: seq<nat>)
    ensures Without(a + ([x] + b), |a|) == a + b
  {
  }

  lemma PrependOneMore(x: nat, small: seq<nat>, big: seq<nat>)
    requires OneMore(small, big)
    ensures OneMore([x] + small, [x] + big)
  {
    if small != big {
      var i :| 0 <= i < |big| && small == Without(big, i);
      assert [x] + small == Without([x] + big, i + 1);
    }
  }

  /** Dropping the last of both, or only of the smaller when they are equal. */
  lemma DropOneMore(small: seq<nat>, big: seq<nat>)
    requires OneMore(small, big) && small != []
    ensures if small == big then OneMore(DropLast(small), big) else OneMore(DropLast(small), DropLast(big))
  {
    if small == big {
      assert DropLast(small) == Without(big, |big| - 1);
    } else {
      var i :| 0 <= i < |big| && small == Without(big, i);
      if i == |big| - 1 {
        assert DropLast(big) == small;
        assert DropLast(small) == Without(DropLast(big), |small| - 1);
      } else {
        assert DropLast(small) == Without(DropLast(big), i);
      }
    }
  }

  lemma WithoutKeeps(l: seq<nat>, i: nat, j: nat)
    requires i < |l| && j < |l|
    ensures i != j ==> l[j] in Without(l, i)
  {
    if i != j {
      assert Without(l, i)[if j < i then j else j - 1] == l[j];
    }
  }

  lemma Lengths(small: seq<nat>, big: seq<nat>)
    requires OneMore(small, big)
    ensures |big| == if small == big then |small| else |small| + 1
  {
    assert forall i | 0 <= i < |big| :: |Without(big, i)| == |big| - 1;
  }

  lemma OnlyOne(o: nat)
    ensures OneMore([], [o])
  {
    assert Without([o], 0) == [];
  }

  lemma AtMostOne(l: seq<nat>)
    requires |l| <= 1
    ensures DropLast(l) == []
  {
  }

  /** A load present only in the larger list moves its one extra element to the front. */
  lemma LoadExtra(small: seq<nat>, big: seq<nat>, o: nat)
    requires OneMore(small, big) && Distinct(big) && o in big && o !in small
    ensures OneMore(small, [o] + Remove(big, o))
  {
    var i :| 0 <= i < |big| && small == Without(big, i);
    var j :| 0 <= j < |big| && big[j] == o;
    WithoutKeeps(big, i, j);
    RemoveOneMore(small, big, o);
    RemoveDistinct(big, o);
    RemoveAbsent(small, o);
    Lengths(small, Remove(big, o));
    assert small == Without([o] + small, 0);
  }

  /** What is in the smaller list is in the larger. */
  lemma OneMoreIncludes(small: seq<nat>, big: seq<nat>, x: nat)
    requires OneMore(small, big) && x in small
    ensures x in big
  {
  }

  lemma NextOneMore(small: seq<nat>, big: seq<nat>, k: nat, a: Access)
    requires OneMore(small, big) && Distinct(small) && Distinct(big) && |small| <= k && |big| <= k + 1
    ensures OneMore(Next(small, k, a), Next(big, k + 1, a))
  {
    hide Remove, DropLast, OneMore;
    RemoveOneMore(small, big, a.offset);
    var s, b := Remove(small, a.offset), Remove(big, a.offset);
    match a
    case Store(o) =>
      Lengths(s, b);
      if k == 0 {
        OnlyOne(o);
        AtMostOne(b);
        assert s == [] && [o] + [] == [o];
      } else if |s| < k {
        PrependOneMore(o, s, b);
      } else {
        DropOneMore(s, b);
        PrependOneMore(o, DropLast(s), if s == b then b else DropLast(b));
      }
    case Load(o) =>
      PrependOneMore(o, s, b);
      if o in small {
        OneMoreIncludes(small, big, o);
      } else if o in big {
        LoadExtra(small, big, o);
      }
    case Invalidate(_) =>
  }

  lemma {:induction false} RunOneMore(k: nat, trace: seq<Access>)
    ensures OneMore(Run(k, trace), Run(k + 1, trace))
    decreases |trace|
  {
    if trace != [] {
      var before := trace[..|trace| - 1];
      RunOneMore(k, before);
      RunWellFormed(k, before);
      RunWellFormed(k + 1, before);
      NextOneMore(Run(k, before), Run(k + 1, before), k, trace[|trace| - 1]);
    }
  }

  /** No Belady anomaly: more memory never holds less. */
  lemma {:induction false} MoreHoldsMore(k: nat, m: nat, trace: seq<Access>, x: nat)
    requires k <= m && x in Run(k, trace)
    ensures x in Run(m, trace)
    decreases m - k
  {
    if k < m {
      RunOneMore(k, trace);
      OneMoreIncludes(Run(k, trace), Run(k + 1, trace), x);
      MoreHoldsMore(k + 1, m, trace, x);
    }
  }
}
