/**
  What was said last about something, in a sequence of events.

  Many parts of the compositor keep state that is decided by the last event that says anything about
  it. Here that state is described without the operations that maintain it.
 */
module LastWords {
  import opened Options

  /** What the last event that says anything says, or `before` if none does. */
  function LastWord<E, V>(say: E -> Option<V>, events: seq<E>, before: V): V {
    if events == [] then before
    else
      var n := |events| - 1;
      if say(events[n]).Some? then say(events[n]).value else LastWord(say, events[..n], before)
  }

  ghost predicate IsLastWord<E, V>(say: E -> Option<V>, events: seq<E>, i: int) {
    && 0 <= i < |events|
    && say(events[i]).Some?
    && forall j | i < j < |events| :: say(events[j]).None?
  }

  /** The same without recursion. */
  lemma {:induction false} LastWordIff<E, V>(say: E -> Option<V>, events: seq<E>, before: V, v: V)
    ensures LastWord(say, events, before) == v <==>
      || (exists i :: IsLastWord(say, events, i) && say(events[i]).value == v)
      || ((forall i | 0 <= i < |events| :: say(events[i]).None?) && before == v)
  {
    if events != [] {
      var n := |events| - 1;
      if say(events[n]).Some? {
        assert IsLastWord(say, events, n);
      } else {
        LastWordIff(say, events[..n], before, v);
        assert forall i | 0 <= i < n :: events[..n][i] == events[i];
        assert forall i :: IsLastWord(say, events, i) <==> IsLastWord(say, events[..n], i);
      }
    }
  }

  /** A first event only matters if nothing is said later. */
  lemma {:induction false} LastWordPrepend<E, V>(say: E -> Option<V>, e: E, rest: seq<E>, before: V)
    ensures LastWord(say, [e] + rest, before) == LastWord(say, rest, say(e).GetOr(before))
  {
    if rest == [] {
      assert ([e] + rest)[..0] == [];
    } else {
      var n := |rest| - 1;
      assert ([e] + rest)[..n + 1] == [e] + rest[..n];
      LastWordPrepend(say, e, rest[..n], before);
    }
  }
}
