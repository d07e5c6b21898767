/**
  Key binds: decoding one section, and overriding binds from earlier sections.

  Sections are overridden one after the other; `Survivors` says in closed form what is left.
 */
module ConfigBinds {
  datatype Key = Key(trigger: nat, modifiers: set<nat>)
  datatype Bind = Bind(key: Key, action: string)

  /** A child node of a binds section: one that decodes to a bind, or one that does not. */
  datatype BindNode = Good(bind: Bind) | Bad

  predicate HasKey(binds: seq<Bind>, key: Key) {
    exists i | 0 <= i < |binds| :: binds[i].key == key
  }

  predicate UniqueKeys(binds: seq<Bind>) {
    forall i, j | 0 <= i < j < |binds| :: binds[i].key != binds[j].key
  }

  // ----- one section

  /** The first bind of every key, in order. */
  function FirstBinds(children: seq<BindNode>): seq<Bind> {
    if children == [] then []
    else
      var binds, last := FirstBinds(children[..|children| - 1]), children[|children| - 1];
      if last.Good? && !HasKey(binds, last.bind.key) then binds + [last.bind] else binds
  }

  /** Every child is a bind and no key is repeated. */
  predicate IsCleanSection(children: seq<BindNode>) {
    && (forall i | 0 <= i < |children| :: children[i].Good?)
    && (forall i, j | 0 <= i < j < |children| :: children[i].bind.key != children[j].bind.key)
  }

  lemma {:induction false} FirstBindsAreUnique(children: seq<BindNode>)
    ensures UniqueKeys(FirstBinds(children))
    ensures forall key :: HasKey(FirstBinds(children), key) <==>
      exists i :: 0 <= i < |children| && children[i].Good? && children[i].bind.key == key
  {
    if children != [] {
      var n := |children| - 1;
      FirstBindsAreUnique(children[..n]);
      var init, binds := FirstBinds(children[..n]), FirstBinds(children);
      forall key ensures HasKey(binds, key) <==>
        exists i :: 0 <= i < |children| && children[i].Good? && children[i].bind.key == key
      {
        if HasKey(init, key) {
          var i :| 0 <= i < |init| && init[i].key == key;
          assert binds[i].key == key;
        }
        if HasKey(binds, key) && !HasKey(init, key) {
          assert children[n].Good? && children[n].bind.key == key;
        }
        if i :| 0 <= i < |children| && children[i].Good? && children[i].bind.key == key {
          if i < n {
            assert children[..n][i] == children[i];
          } else if !HasKey(init, key) {
            assert binds[|init|].key == key;
          }
        }
      }
    }
  }

  predicate IsFirstAt(children: seq<BindNode>, i: nat, bind: Bind)
    requires i < |children|
  {
    children[i] == Good(bind) && forall j | 0 <= j < i && children[j].Good? :: children[j].bind.key != bind.key
  }

  /** Of binds with the same key the first one is kept. */
  lemma {:induction false} FirstBindIsKept(children: seq<BindNode>, bind: Bind)
    ensures bind in FirstBinds(children) <==> exists i :: 0 <= i < |children| && IsFirstAt(children, i, bind)
  {
    if children != [] {
      var n := |children| - 1;
      FirstBindIsKept(children[..n], bind);
      FirstBindsAreUnique(children[..n]);
      assert forall i | 0 <= i < n :: children[..n][i] == children[i];
      assert forall i | 0 <= i < n :: IsFirstAt(children[..n], i, bind) <==> IsFirstAt(children, i, bind);
      assert IsFirstAt(children, n, bind) <==> children[n] == Good(bind) && !HasKey(FirstBinds(children[..n]), bind.key);
    }
  }

  lemma {:induction false} CleanSectionIsKept(children: seq<BindNode>)
    requires IsCleanSection(children)
    ensures |FirstBinds(children)| == |children|
    ensures forall i | 0 <= i < |children| :: FirstBinds(children)[i] == children[i].bind
  {
    if children != [] {
      var n := |children| - 1;
      CleanSectionIsKept(children[..n]);
      assert !HasKey(FirstBinds(children[..n]), children[n].bind.key);
    }
  }

  lemma {:induction false} KeepsAtMostAll(children: seq<BindNode>)
    ensures |FirstBinds(children)| <= |children|
  {
    if children != [] {
      KeepsAtMostAll(children[..|children| - 1]);
    }
  }

  /** A section is clean exactly if every child of it becomes a bind. */
  lemma {:induction false} CleanSectionIff(children: seq<BindNode>)
    ensures IsCleanSection(children) <==> |FirstBinds(children)| == |children|
  {
    if IsCleanSection(children) {
      CleanSectionIsKept(children);
    } else {
      var n := |children| - 1;
      KeepsAtMostAll(children[..n]);
      CleanSectionIff(children[..n]);
      assert children[..n + 1] == children;
      if children[n].Good? && !HasKey(FirstBinds(children[..n]), children[n].bind.key) {
        StaysClean(children, n);
      }
    }
  }

  /** Decodes a section; `clean` is false if an error was reported. */
  method DecodeBinds(children: seq<BindNode>) returns (binds: seq<Bind>, clean: bool)
    ensures binds == FirstBinds(children)
    ensures clean <==> IsCleanSection(children)
    ensures UniqueKeys(binds)
    ensures clean ==> |binds| == |children| && forall i | 0 <= i < |children| :: binds[i] == children[i].bind
  {
    var seenKeys: set<Key> := {};
    binds, clean := [], true;
    for i := 0 to |children|
      invariant binds == FirstBinds(children[..i])
      invariant forall key :: key in seenKeys <==> HasKey(binds, key)
      invariant clean <==> IsCleanSection(children[..i])
    {
      assert children[..i + 1][..i] == children[..i];
      FirstBindsAreUnique(children[..i]);
      match children[i] {
        case Bad =>
          clean := false;
          assert children[..i + 1][i].Bad?;
        case Good(bind) =>
          if bind.key in seenKeys {
            assert !IsCleanSection(children[..i + 1]) by {
              var j :| 0 <= j < i && children[..i][j].Good? && children[..i][j].bind.key == bind.key;
              assert children[..i + 1][j].bind.key == children[..i + 1][i].bind.key;
            }
            clean := false;
          } else {
            AppendKey(binds, bind);
            StaysClean(children, i);
            seenKeys := seenKeys + {bind.key};
            binds := binds + [bind];
          }
      }
    }
    assert children[..|children|] == children;
    FirstBindsAreUnique(children);
    if clean {
      CleanSectionIsKept(children);
    }
  }

  lemma AppendKey(binds: seq<Bind>, bind: Bind)
    ensures forall key :: HasKey(binds + [bind], key) <==> HasKey(binds, key) || key == bind.key
  {
    forall key ensures HasKey(binds + [bind], key) <==> HasKey(binds, key) || key == bind.key {
      if HasKey(binds, key) {
        var i :| 0 <= i < |binds| && binds[i].key == key;
        assert (binds + [bind])[i].key == key;
      }
      if key == bind.key {
        assert (binds + [bind])[|binds|].key == key;
      }
    }
  }

  lemma StaysClean(children: seq<BindNode>, i: nat)
    requires i < |children| && children[i].Good?
    requires !HasKey(FirstBinds(children[..i]), children[i].bind.key)
    ensures IsCleanSection(children[..i + 1]) <==> IsCleanSection(children[..i])
  {
    FirstBindsAreUnique(children[..i]);
    var init, longer := children[..i], children[..i + 1];
    forall j | 0 <= j < i ensures longer[j] == init[j] && (init[j].Good? ==> init[j].bind.key != longer[i].bind.key) {
    }
    if IsCleanSection(longer) {
      forall j | 0 <= j < i ensures init[j].Good? {
        assert longer[j].Good?;
      }
      forall j, k | 0 <= j < k < i ensures init[j].bind.key != init[k].bind.key {
        assert longer[j].bind.key != longer[k].bind.key;
      }
    }
  }

  // ----- overriding

  function Keep(p: Bind -> bool, binds: seq<Bind>): seq<Bind> {
    if binds == [] then []
    else (if p(binds[0]) then [binds[0]] else []) + Keep(p, binds[1..])
  }

  /** Binds with a key that a new bind has are removed; all new binds are added at the end. */
  function Override(binds: seq<Bind>, part: seq<Bind>): seq<Bind> {
    Keep(NotIn(part), binds) + part
  }

  function NotIn(part: seq<Bind>): Bind -> bool {
    (b: Bind) => !HasKey(part, b.key)
  }

  function OverrideAll(binds: seq<Bind>, sections: seq<seq<Bind>>): seq<Bind> {
    if sections == [] then binds
    else Override(OverrideAll(binds, sections[..|sections| - 1]), sections[|sections| - 1])
  }

  predicate Defines(sections: seq<seq<Bind>>, key: Key) {
    exists i | 0 <= i < |sections| :: HasKey(sections[i], key)
  }

  function NotDefinedIn(sections: seq<seq<Bind>>): Bind -> bool {
    (b: Bind) => !Defines(sections, b.key)
  }

  /** Of every section the binds that no later section defines again, in order. */
  function Survivors(sections: seq<seq<Bind>>): seq<Bind> {
    if sections == [] then []
    else Keep(NotDefinedIn(sections[1..]), sections[0]) + Survivors(sections[1..])
  }

  lemma {:induction false} KeepAppend(p: Bind -> bool, a: seq<Bind>, b: seq<Bind>)
    ensures Keep(p, a + b) == Keep(p, a) + Keep(p, b)
  {
    if a == [] {
      assert a + b == b;
    } else {
      var first := if p(a[0]) then [a[0]] else [];
      assert (a + b)[0] == a[0] && (a + b)[1..] == a[1..] + b;
      assert Keep(p, a + b) == first + Keep(p, a[1..] + b);
      KeepAppend(p, a[1..], b);
      assert Keep(p, a) == first + Keep(p, a[1..]);
    }
  }

  lemma {:induction false} KeepTwice(p: Bind -> bool, q: Bind -> bool, r: Bind -> bool, binds: seq<Bind>)
    requires forall b :: r(b) <==> p(b) && q(b)
    ensures Keep(p, Keep(q, binds)) == Keep(r, binds)
  {
    if binds != [] {
      KeepTwice(p, q, r, binds[1..]);
      KeepAppend(p, if q(binds[0]) then [binds[0]] else [], Keep(q, binds[1..]));
    }
  }

  lemma DefinesAppend(sections: seq<seq<Bind>>, part: seq<Bind>)
    ensures forall key :: Defines(sections + [part], key) <==> Defines(sections, key) || HasKey(part, key)
  {
    forall key ensures Defines(sections + [part], key) <==> Defines(sections, key) || HasKey(part, key) {
      var longer := sections + [part];
      if Defines(sections, key) {
        var i :| 0 <= i < |sections| && HasKey(sections[i], key);
        assert HasKey(longer[i], key);
      }
      if HasKey(part, key) {
        assert HasKey(longer[|sections|], key);
      }
    }
  }

  lemma {:induction false} OverrideSurvivors(sections: seq<seq<Bind>>, part: seq<Bind>)
    ensures Override(Survivors(sections), part) == Survivors(sections + [part])
  {
    var longer := sections + [part];
    if sections == [] {
      assert longer[1..] == [];
      KeepAll(NotDefinedIn([]), part);
    } else {
      var rest := sections[1..];
      assert longer[1..] == rest + [part];
      OverrideSurvivors(rest, part);
      DefinesAppend(rest, part);
      KeepTwice(NotIn(part), NotDefinedIn(rest), NotDefinedIn(longer[1..]), sections[0]);
      KeepAppend(NotIn(part), Keep(NotDefinedIn(rest), sections[0]), Survivors(rest));
    }
  }

  lemma {:induction false} KeepAll(p: Bind -> bool, binds: seq<Bind>)
    requires forall b :: p(b)
    ensures Keep(p, binds) == binds
  {
    if binds != [] {
      KeepAll(p, binds[1..]);
    }
  }

  /** Overriding section after section leaves the survivors. */
  lemma {:induction false} OverrideAllGivesSurvivors(sections: seq<seq<Bind>>)
    ensures OverrideAll([], sections) == Survivors(sections)
  {
    if sections != [] {
      var n := |sections| - 1;
      OverrideAllGivesSurvivors(sections[..n]);
      OverrideSurvivors(sections[..n], sections[n]);
      assert sections[..n] + [sections[n]] == sections;
    }
  }

  // ----- who survives

  lemma {:induction false} KeepIsFilter(p: Bind -> bool, binds: seq<Bind>)
    ensures forall b :: b in Keep(p, binds) <==> b in binds && p(b)
    ensures UniqueKeys(binds) ==> UniqueKeys(Keep(p, binds))
  {
    if binds != [] {
      KeepIsFilter(p, binds[1..]);
      assert binds == [binds[0]] + binds[1..];
      if UniqueKeys(binds) && p(binds[0]) {
        var kept := Keep(p, binds[1..]);
        forall j | 0 <= j < |kept| ensures kept[j].key != binds[0].key {
          assert kept[j] in binds[1..];
        }
      }
    }
  }

  /** The bind is in the last section that defines its key. */
  ghost predicate IsLastDefinition(sections: seq<seq<Bind>>, b: Bind) {
    exists i | 0 <= i < |sections| :: b in sections[i] && !Defines(sections[i + 1..], b.key)
  }

  /** Keys are unique, and exactly the last definitions survive. */
  lemma {:induction false} SurvivorsAreLastDefinitions(sections: seq<seq<Bind>>)
    requires forall i | 0 <= i < |sections| :: UniqueKeys(sections[i])
    ensures UniqueKeys(Survivors(sections))
    ensures forall b :: b in Survivors(sections) <==> IsLastDefinition(sections, b)
    ensures forall key :: HasKey(Survivors(sections), key) <==> Defines(sections, key)
  {
    if sections != [] {
      var rest := sections[1..];
      var first, later := Keep(NotDefinedIn(rest), sections[0]), Survivors(rest);
      SurvivorsAreLastDefinitions(rest);
      KeepIsFilter(NotDefinedIn(rest), sections[0]);
      assert Survivors(sections) == first + later;
      forall b ensures b in first + later <==> IsLastDefinition(sections, b) {
        LastDefinitionShift(sections, b);
      }
      forall i, j | 0 <= i < |first| && 0 <= j < |later| ensures first[i].key != later[j].key {
        assert first[i] in first && HasKey(later, later[j].key);
      }
      forall key ensures HasKey(first + later, key) <==> Defines(sections, key) {
        SurvivingKey(sections, first, later, key);
      }
    }
  }

  lemma LastDefinitionShift(sections: seq<seq<Bind>>, b: Bind)
    requires sections != []
    ensures IsLastDefinition(sections, b) <==>
      (b in sections[0] && !Defines(sections[1..], b.key)) || IsLastDefinition(sections[1..], b)
  {
  }

  lemma SurvivingKey(sections: seq<seq<Bind>>, first: seq<Bind>, later: seq<Bind>, key: Key)
    requires sections != []
    requires forall b :: b in first <==> b in sections[0] && !Defines(sections[1..], b.key)
    requires HasKey(later, key) <==> Defines(sections[1..], key)
    ensures HasKey(first + later, key) <==> Defines(sections, key)
  {
    var rest, all := sections[1..], first + later;
    if Defines(rest, key) {
      var i :| 0 <= i < |rest| && HasKey(rest[i], key);
      assert HasKey(sections[i + 1], key);
      var j :| 0 <= j < |later| && later[j].key == key;
      assert all[|first| + j].key == key;
    } else {
      if HasKey(all, key) {
        var j :| 0 <= j < |all| && all[j].key == key;
        assert forall k | |first| <= k < |all| :: all[k] == later[k - |first|];
        assert first[j] in sections[0];
        assert HasKey(sections[0], key);
      }
      if Defines(sections, key) {
        var i :| 0 <= i < |sections| && HasKey(sections[i], key);
        assert forall k | 1 <= k < |sections| :: sections[k] == rest[k - 1];
        var j :| 0 <= j < |sections[0]| && sections[0][j].key == key;
        assert sections[0][j] in first;
        var k :| 0 <= k < |first| && first[k] == sections[0][j];
        assert all[k].key == key;
      }
    }
  }

  // ----- all sections as one list

  function Concat(sections: seq<seq<Bind>>): seq<Bind> {
    if sections == [] then [] else sections[0] + Concat(sections[1..])
  }

  /** Of the binds for each key only the last one. */
  function LastOfEachKey(binds: seq<Bind>): seq<Bind> {
    if binds == [] then []
    else (if HasKey(binds[1..], binds[0].key) then [] else [binds[0]]) + LastOfEachKey(binds[1..])
  }

  lemma {:induction false} ConcatHasKey(sections: seq<seq<Bind>>, key: Key)
    ensures HasKey(Concat(sections), key) <==> Defines(sections, key)
  {
    if sections != [] {
      ConcatHasKey(sections[1..], key);
      HasKeyAppend(sections[0], Concat(sections[1..]), key);
      assert forall i | 0 < i < |sections| :: sections[i] == sections[1..][i - 1];
      if Defines(sections[1..], key) {
        var i :| 0 <= i < |sections[1..]| && HasKey(sections[1..][i], key);
        assert HasKey(sections[i + 1], key);
      }
    }
  }

  lemma HasKeyAppend(a: seq<Bind>, b: seq<Bind>, key: Key)
    ensures HasKey(a + b, key) <==> HasKey(a, key) || HasKey(b, key)
  {
    if HasKey(a, key) {
      var i :| 0 <= i < |a| && a[i].key == key;
      assert (a + b)[i].key == key;
    }
    if HasKey(b, key) {
      var i :| 0 <= i < |b| && b[i].key == key;
      assert (a + b)[|a| + i].key == key;
    }
  }

  /** In front of later binds, a section without repeated keys keeps what they do not define. */
  lemma {:induction false} LastOfSection(section: seq<Bind>, later: seq<seq<Bind>>)
    requires UniqueKeys(section)
    ensures LastOfEachKey(section + Concat(later)) == Keep(NotDefinedIn(later), section) + LastOfEachKey(Concat(later))
  {
    if section == [] {
      assert section + Concat(later) == Concat(later);
    } else {
      var first, rest := section[0], section[1..];
      assert (section + Concat(later))[0] == first && (section + Concat(later))[1..] == rest + Concat(later);
      assert UniqueKeys(rest) && !HasKey(rest, first.key);
      HasKeyAppend(rest, Concat(later), first.key);
      ConcatHasKey(later, first.key);
      LastOfSection(rest, later);
    }
  }

  /** Overriding is the same as concatenating all sections and keeping the last bind of each key. */
  lemma {:induction false} SurvivorsAreLastOfEachKey(sections: seq<seq<Bind>>)
    requires forall i | 0 <= i < |sections| :: UniqueKeys(sections[i])
    ensures Survivors(sections) == LastOfEachKey(Concat(sections))
  {
    if sections != [] {
      SurvivorsAreLastOfEachKey(sections[1..]);
      LastOfSection(sections[0], sections[1..]);
    }
  }
}
