/**
 * The merged debug names: both inputs' (index, name) lists are renumbered with the linker's index maps,
 * concatenated shell first, sorted and deduplicated.
 */
module Names {
  import opened Core
  import opened Linker
  import opened LinkMeaning
  import opened StableSort

  /** Indices and their names. */
  type NameList = seq<Keyed<string>>

  /** The name a list gives to an index: that of its first entry. */
  function FirstName(es: NameList, i: nat): Option<string> {
    if es == [] then None
    else
      var earlier := FirstName(es[..|es| - 1], i);
      if earlier.Some? then earlier else if es[|es| - 1].key == i then Some(es[|es| - 1].item) else None
  }

  ghost predicate StrictlyAscending(es: NameList) { forall i, j :: 0 <= i < j < |es| ==> es[i].key < es[j].key }

  lemma {:induction false} FirstOfConcat(a: NameList, b: NameList, i: nat)
    ensures FirstName(a + b, i) == if FirstName(a, i).Some? then FirstName(a, i) else FirstName(b, i)
  {
    if b == [] {
      assert a + b == a;
    } else {
      assert (a + b)[..|a + b| - 1] == a + b[..|b| - 1];
      FirstOfConcat(a, b[..|b| - 1], i);
    }
  }

  lemma OnlyEntry(e: Keyed<string>, i: nat)
    ensures FirstName([e], i) == if e.key == i then Some(e.item) else None
  {
    assert [e][..0] == [];
  }

  // ---------------------------------------------------------------------------------------------
  // Sorting and deduplicating.
  // ---------------------------------------------------------------------------------------------

  lemma {:induction false} InsertKeepsFirst(es: NameList, e: Keyed<string>, i: nat)
    ensures FirstName(Insert(es, e), i) == FirstName(es + [e], i)
  {
    FirstOfConcat(es, [e], i);
    if es != [] && es[|es| - 1].key > e.key {
      var rest, last := es[..|es| - 1], es[|es| - 1];
      assert es == rest + [last];
      InsertKeepsFirst(rest, e, i);
      FirstOfConcat(rest, [e], i);
      FirstOfConcat(Insert(rest, e), [last], i);
      FirstOfConcat(rest, [last], i);
      OnlyEntry(e, i);
      OnlyEntry(last, i);
    }
  }

  /** A stable sort keeps which entry of an index comes first. */
  lemma {:induction false} SortKeepsFirst(es: NameList, i: nat)
    ensures FirstName(Sort(es), i) == FirstName(es, i)
  {
    if es != [] {
      var rest, last := es[..|es| - 1], es[|es| - 1];
      SortKeepsFirst(rest, i);
      InsertKeepsFirst(Sort(rest), last, i);
      FirstOfConcat(Sort(rest), [last], i);
      FirstOfConcat(rest, [last], i);
      assert es == rest + [last];
    }
  }

  /** One entry per index, in strictly ascending order, each with the name that came first. */
  method SortedUnique(entries: NameList) returns (out: NameList)
    ensures StrictlyAscending(out)
    ensures forall i: nat :: FirstName(out, i) == FirstName(entries, i)
  {
    var sorted := Sort(entries);
    SortAscends(entries);
    out := [];
    for k := 0 to |sorted|
      invariant StrictlyAscending(out)
      invariant if k == 0 then out == [] else out != [] && out[|out| - 1].key == sorted[k - 1].key
      invariant forall i: nat :: FirstName(out, i) == FirstName(sorted[..k], i)
    {
      var e := sorted[k];
      assert sorted[..k + 1][..k] == sorted[..k];
      ghost var before := out;
      if out == [] || out[|out| - 1].key != e.key {
        out := out + [e];
        assert out[..|out| - 1] == before;
      } else {
        assert FirstName(out, e.key).Some?;
      }
    }
    assert sorted[..|sorted|] == sorted;
    forall i: nat ensures FirstName(out, i) == FirstName(entries, i) { SortKeepsFirst(entries, i); }
  }

  // ---------------------------------------------------------------------------------------------
  // Whose name a merged function carries.
  // ---------------------------------------------------------------------------------------------

  function Moved(es: NameList, l: Layout, side: Side): (r: NameList)
    ensures |r| == |es|
  {
    seq(|es|, i requires 0 <= i < |es| => Keyed(MapFunc(l, side, es[i].key), es[i].item))
  }

  ghost predicate Below(es: NameList, n: nat) { forall i :: 0 <= i < |es| ==> es[i].key < n }

  lemma {:induction false} MovedFirst(es: NameList, l: Layout, side: Side, f: nat)
    requires forall k :: 0 <= k < |es| && MapFunc(l, side, es[k].key) == MapFunc(l, side, f) ==> es[k].key == f
    ensures FirstName(Moved(es, l, side), MapFunc(l, side, f)) == FirstName(es, f)
  {
    if es != [] {
      assert Moved(es, l, side)[..|es| - 1] == Moved(es[..|es| - 1], l, side);
      MovedFirst(es[..|es| - 1], l, side, f);
    }
  }

  lemma {:induction false} FirstIsThere(es: NameList, i: nat)
    ensures FirstName(es, i).Some? ==> exists k :: 0 <= k < |es| && es[k].key == i
  {
    if es != [] { FirstIsThere(es[..|es| - 1], i); }
  }

  /** A user function that is no rewired import keeps the name its own module gave it. */
  lemma UserFunctionName(shell: Module, user: Module, a: Aliases, shellNames: NameList, userNames: NameList, f: nat)
    requires Linkable(shell, user, a) && ExportsInRange(shell) && Below(shellNames, |shell.funcs|)
    requires var l := LayoutOf(shell, user); f < |l.targets| ==> l.targets[f].Forwarded?
    ensures var l := LayoutOf(shell, user);
      FirstName(Moved(shellNames, l, Shell) + Moved(userNames, l, User), MapFunc(l, User, f)) == FirstName(userNames, f)
  {
    var l := LayoutOf(shell, user);
    var m := MapFunc(l, User, f);
    FirstOfConcat(Moved(shellNames, l, Shell), Moved(userNames, l, User), m);
    FirstIsThere(Moved(shellNames, l, Shell), m);
    forall k | 0 <= k < |shellNames| ensures Moved(shellNames, l, Shell)[k].key != m {
      UserFuncsInjective(shell, user, f, f + 1 + |l.targets|, shellNames[k].key);
    }
    forall k | 0 <= k < |userNames| && userNames[k].key != f ensures MapFunc(l, User, userNames[k].key) != m {
      ApartFrom(shell, user, a, f, userNames[k].key);
    }
    MovedFirst(userNames, l, User, f);
  }

  lemma ApartFrom(shell: Module, user: Module, a: Aliases, f: nat, g: nat)
    requires Linkable(shell, user, a) && ExportsInRange(shell) && f != g
    requires var l := LayoutOf(shell, user); f < |l.targets| ==> l.targets[f].Forwarded?
    ensures MapFunc(LayoutOf(shell, user), User, f) != MapFunc(LayoutOf(shell, user), User, g)
  {
    var l := LayoutOf(shell, user);
    if g < |l.targets| && l.targets[g].Rewired? {
      RewiredInRange(user.imports, ExportedFuncs(shell.exports), |shell.funcs|);
      assert l.targets == Targets(user.imports, ExportedFuncs(shell.exports));
      UserFuncsInjective(shell, user, f, f + 1 + |l.targets|, l.targets[g].shell);
    } else {
      UserFuncsInjective(shell, user, f, g, 0);
    }
  }

  /** A shell function the shell names keeps that name, also for the imports rewired to it. */
  lemma ShellFunctionName(shell: Module, user: Module, shellNames: NameList, userNames: NameList, s: nat)
    requires FirstName(shellNames, s).Some?
    ensures var l := LayoutOf(shell, user);
      && FirstName(Moved(shellNames, l, Shell) + Moved(userNames, l, User), MapFunc(l, Shell, s)) == FirstName(shellNames, s)
      && forall f :: 0 <= f < |l.targets| && l.targets[f] == Rewired(s) ==> MapFunc(l, User, f) == MapFunc(l, Shell, s)
  {
    var l := LayoutOf(shell, user);
    FirstOfConcat(Moved(shellNames, l, Shell), Moved(userNames, l, User), MapFunc(l, Shell, s));
    MovedFirst(shellNames, l, Shell, s);
  }

  /** Segment names are not renumbered although the user's segments move behind the shell's: they stay
      with their segments, whatever the names, exactly when one side has no segments. */
  lemma SegmentNamesKeptIff(shellCount: nat, userCount: nat)
    ensures (forall shellNames: NameList, userNames: NameList, k: nat ::
              Below(shellNames, shellCount) && Below(userNames, userCount) && k < userCount ==>
              FirstName(shellNames + userNames, shellCount + k) == FirstName(userNames, k))
            <==> shellCount == 0 || userCount == 0
  {
    if shellCount == 0 || userCount == 0 {
      forall shellNames: NameList, userNames: NameList, k: nat
        | Below(shellNames, shellCount) && Below(userNames, userCount) && k < userCount
        ensures FirstName(shellNames + userNames, shellCount + k) == FirstName(userNames, k)
      {
        NoShellSegments(shellNames, userNames);
      }
    } else {
      MisplacedName(shellCount, userCount);
    }
  }

  lemma NoShellSegments(shellNames: NameList, userNames: NameList)
    requires Below(shellNames, 0)
    ensures shellNames + userNames == userNames
  {
    assert shellNames != [] ==> shellNames[0].key < 0;
  }

  /** The user names only its last segment: the merged list then names nothing behind that index. */
  lemma MisplacedName(shellCount: nat, userCount: nat)
    requires shellCount > 0 && userCount > 0
    ensures exists shellNames: NameList, userNames: NameList, k: nat ::
              && Below(shellNames, shellCount) && Below(userNames, userCount) && k < userCount
              && FirstName(shellNames + userNames, shellCount + k) != FirstName(userNames, k)
  {
    var none: NameList := [];
    var names: NameList := [Keyed(userCount - 1, "last")];
    FirstOfConcat(none, names, shellCount + (userCount - 1));
    assert names[..0] == [];
    assert FirstName(names, userCount - 1) == Some("last");
    assert FirstName(names, shellCount + (userCount - 1)) == None;
    assert Below(none, shellCount) && Below(names, userCount);
  }
}
