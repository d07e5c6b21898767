/** Going from one output to the next or the previous one in the sorted order, with wrap-around. */
module OutputCycling {
  import opened Options

  /** Everything from the first occurrence of `current` on. */
  function SkipUntil<T(==)>(outputs: seq<T>, current: T): seq<T> {
    if outputs == [] || outputs[0] == current then outputs else SkipUntil(outputs[1..], current)
  }

  function Reversed<T>(s: seq<T>): seq<T> {
    seq(|s|, i requires 0 <= i < |s| => s[|s| - 1 - i])
  }

  /** The second element from `current` on, or else `fallback`, unless that is `current` again. */
  function After<T(==)>(outputs: seq<T>, current: T): Option<T> {
    var rest := SkipUntil(outputs, current);
    var found := if |rest| > 1 then Some(rest[1]) else if outputs != [] then Some(outputs[0]) else None;
    if found == Some(current) then None else found
  }

  function OutputNextOf<T(==)>(sorted: seq<T>, current: T): Option<T> {
    After(sorted, current)
  }

  function OutputPreviousOf<T(==)>(sorted: seq<T>, current: T): Option<T> {
    After(Reversed(sorted), current)
  }

  predicate Distinct<T(==)>(s: seq<T>) {
    forall i, j | 0 <= i < j < |s| :: s[i] != s[j]
  }

  lemma {:induction false} SkipUntilFinds<T>(outputs: seq<T>, i: nat)
    requires i < |outputs| && Distinct(outputs)
    ensures SkipUntil(outputs, outputs[i]) == outputs[i..]
  {
    if i > 0 {
      assert outputs[1..][i - 1] == outputs[i];
      SkipUntilFinds(outputs[1..], i - 1);
      assert outputs[1..][i - 1..] == outputs[i..];
    }
  }

  lemma NextIsCyclicSuccessor<T>(sorted: seq<T>, i: nat)
    requires Distinct(sorted) && i < |sorted| && |sorted| >= 2
    ensures OutputNextOf(sorted, sorted[i]) == Some(sorted[if i + 1 < |sorted| then i + 1 else 0])
  {
    SkipUntilFinds(sorted, i);
  }

  lemma PreviousIsCyclicPredecessor<T>(sorted: seq<T>, i: nat)
    requires Distinct(sorted) && i < |sorted| && |sorted| >= 2
    ensures OutputPreviousOf(sorted, sorted[i]) == Some(sorted[if i > 0 then i - 1 else |sorted| - 1])
  {
    var n := |sorted|;
    assert Reversed(sorted)[n - 1 - i] == sorted[i];
    NextIsCyclicSuccessor(Reversed(sorted), n - 1 - i);
  }

  /** With two or more outputs, previous undoes next and next undoes previous. */
  lemma PreviousUndoesNext<T>(sorted: seq<T>, current: T)
    requires Distinct(sorted) && |sorted| >= 2 && current in sorted
    ensures OutputNextOf(sorted, current).Some?
      && OutputPreviousOf(sorted, OutputNextOf(sorted, current).value) == Some(current)
    ensures OutputPreviousOf(sorted, current).Some?
      && OutputNextOf(sorted, OutputPreviousOf(sorted, current).value) == Some(current)
  {
    var n := |sorted|;
    var i :| 0 <= i < n && sorted[i] == current;
    var next := if i + 1 < n then i + 1 else 0;
    var previous := if i > 0 then i - 1 else n - 1;
    NextIsCyclicSuccessor(sorted, i);
    PreviousIsCyclicPredecessor(sorted, next);
    PreviousIsCyclicPredecessor(sorted, i);
    NextIsCyclicSuccessor(sorted, previous);
  }

  /** `steps` times next, starting at `current`. */
  function Iterate<T(==)>(sorted: seq<T>, current: T, steps: nat): Option<T> {
    if steps == 0 then Some(current)
    else
      var previous := Iterate(sorted, current, steps - 1);
      if previous.None? then None else OutputNextOf(sorted, previous.value)
  }

  lemma {:induction false} IterateIsCyclic<T>(sorted: seq<T>, i: nat, steps: nat)
    requires Distinct(sorted) && i < |sorted| && |sorted| >= 2 && steps <= |sorted|
    ensures Iterate(sorted, sorted[i], steps) ==
      Some(sorted[if i + steps < |sorted| then i + steps else i + steps - |sorted|])
  {
    if steps > 0 {
      IterateIsCyclic(sorted, i, steps - 1);
      var n, before := |sorted|, i + steps - 1;
      var k := if before < n then before else before - n;
      NextIsCyclicSuccessor(sorted, k);
    }
  }

  /** Iterating next visits every output exactly once before coming back to the start. */
  lemma NextVisitsEachOnce<T>(sorted: seq<T>, start: T, target: T)
    requires Distinct(sorted) && |sorted| >= 2 && start in sorted && target in sorted
    ensures exists k :: 0 <= k < |sorted| && Iterate(sorted, start, k) == Some(target)
    ensures forall k, l | 0 <= k < l < |sorted| :: Iterate(sorted, start, k) != Iterate(sorted, start, l)
    ensures Iterate(sorted, start, |sorted|) == Some(start)
  {
    var n := |sorted|;
    var i :| 0 <= i < n && sorted[i] == start;
    var j :| 0 <= j < n && sorted[j] == target;
    var k := if j >= i then j - i else j + n - i;
    IterateIsCyclic(sorted, i, k);
    assert Iterate(sorted, start, k) == Some(target);
    forall k, l | 0 <= k < l < n ensures Iterate(sorted, start, k) != Iterate(sorted, start, l) {
      IterateIsCyclic(sorted, i, k);
      IterateIsCyclic(sorted, i, l);
    }
    IterateIsCyclic(sorted, i, n);
  }

  /** A lone output has no neighbours; an unknown one is sent to the ends of the list. */
  lemma {:induction false} EdgesOfCycling<T>(sorted: seq<T>, current: T)
    ensures sorted == [current] ==> OutputNextOf(sorted, current) == None && OutputPreviousOf(sorted, current) == None
    ensures current !in sorted && sorted != [] ==>
      OutputNextOf(sorted, current) == Some(sorted[0]) && OutputPreviousOf(sorted, current) == Some(sorted[|sorted| - 1])
  {
    if current !in sorted {
      SkipUntilMisses(sorted, current);
      SkipUntilMisses(Reversed(sorted), current);
    }
  }

  lemma {:induction false} SkipUntilMisses<T>(outputs: seq<T>, current: T)
    requires current !in outputs
    ensures SkipUntil(outputs, current) == []
  {
    if outputs != [] {
      SkipUntilMisses(outputs[1..], current);
    }
  }
}
