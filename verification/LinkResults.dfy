/**
 * What else a caller of the linker relies on: exports, the default memory, the start function, and
 * exactly which constant expressions survive being copied without renumbering.
 */
module LinkResults {
  import opened Core
  import opened Wasm
  import opened Linker
  import opened LinkMeaning
  import opened Instantiation

  // ---------------------------------------------------------------------------------------------
  // Exports.
  // ---------------------------------------------------------------------------------------------

  function KeptExports(es: seq<Export>, side: Side): seq<Export> {
    if es == [] then []
    else
      var last := es[|es| - 1];
      KeptExports(es[..|es| - 1], side) + if side == User && !KeptExport(last) then [] else [last]
  }

  /** The address an export gives out. */
  function ExportAddr(e: Export, i: Inst): Option<nat> {
    match e.kind
    case FuncKind => Addr(i.funcs, e.index)
    case TableKind => Addr(i.tables, e.index)
    case MemoryKind => Addr(i.mems, e.index)
    case GlobalKind => Addr(i.globals, e.index)
    case TagKind => None
  }

  predicate ExportValid(e: Export, i: Inst) { e.kind != TagKind ==> ExportAddr(e, i).Some? }

  /** The same names in the same order, each giving out the same address. */
  ghost predicate SameExports(a: seq<Export>, ai: Inst, b: seq<Export>, bi: Inst) {
    |a| == |b| && forall i :: 0 <= i < |a| ==> a[i].name == b[i].name && a[i].kind == b[i].kind && ExportAddr(a[i], ai) == ExportAddr(b[i], bi)
  }

  lemma {:induction false} ExportsMean(es: seq<Export>, mi: Inst, own: Inst, l: Layout, side: Side)
    requires SideMapped(mi, own, l, side) && (side == Shell ==> MemoriesMapped(mi, own))
    requires forall e :: e in es ==> ExportValid(e, own)
    ensures SameExports(RewriteExports(es, l, side), mi, KeptExports(es, side), own)
  {
    if es != [] {
      var before, last := es[..|es| - 1], es[|es| - 1];
      assert forall e :: e in before ==> e in es;
      ExportsMean(before, mi, own, l, side);
      assert last in es;
      if side == Shell || KeptExport(last) { assert ExportAddr(RewriteExport(last, l, side), mi) == ExportAddr(last, own); }
    }
  }

  /** The merged module exports everything the shell does and everything the user does except
      memories and housekeeping names, each under its own name and at its own address, and then one
      memory per alias. */
  lemma MergedExports(shell: Module, user: Module, a: Aliases, b: Base, x: Externs)
    requires Linkable(shell, user, a) && ExportsInRange(shell) && ExternsOk(user, b, x)
    requires forall e :: e in shell.exports ==> ExportValid(e, ShellInst(shell, b))
    requires forall e :: e in user.exports ==> ExportValid(e, UserInst(shell, user, b, x))
    ensures var l := LayoutOf(shell, user); var mi := MergedInst(Merged(shell, user, a), b, x);
      var s := RewriteExports(shell.exports, l, Shell); var u := RewriteExports(user.exports, l, User);
      && Merged(shell, user, a).exports == s + u + AliasExports(a)
      && SameExports(s, mi, KeptExports(shell.exports, Shell), ShellInst(shell, b))
      && SameExports(u, mi, KeptExports(user.exports, User), UserInst(shell, user, b, x))
      && forall i :: 0 <= i < |a| ==> ExportAddr(AliasExports(a)[i], mi) == Addr(ShellInst(shell, b).mems, a[i].1)
  {
    SidesMapped(shell, user, a, b, x);
    var l, mi := LayoutOf(shell, user), MergedInst(Merged(shell, user, a), b, x);
    ExportsMean(shell.exports, mi, ShellInst(shell, b), l, Shell);
    ExportsMean(user.exports, mi, UserInst(shell, user, b, x), l, User);
    ShellIsMapped(shell, user, a, b, x);
  }

  ghost predicate Distinct(es: seq<Export>) { forall i, j :: 0 <= i < j < |es| ==> es[i].name != es[j].name }

  ghost predicate Apart(a: seq<Export>, b: seq<Export>) { forall i, j :: 0 <= i < |a| && 0 <= j < |b| ==> a[i].name != b[j].name }

  ghost predicate SameNames(a: seq<Export>, b: seq<Export>) { |a| == |b| && forall i :: 0 <= i < |a| ==> a[i].name == b[i].name }

  lemma DistinctConcat(a: seq<Export>, b: seq<Export>)
    ensures Distinct(a + b) <==> Distinct(a) && Distinct(b) && Apart(a, b)
  {
    var c := a + b;
    if Distinct(c) {
      forall i, j | 0 <= i < j < |a| ensures a[i].name != a[j].name { assert c[i].name != c[j].name; }
      forall i, j | 0 <= i < j < |b| ensures b[i].name != b[j].name { assert c[|a| + i].name != c[|a| + j].name; }
      forall i, j | 0 <= i < |a| && 0 <= j < |b| ensures a[i].name != b[j].name { assert c[i].name != c[|a| + j].name; }
    }
  }

  lemma {:induction false} RewriteKeepsNames(es: seq<Export>, l: Layout, side: Side)
    ensures SameNames(RewriteExports(es, l, side), KeptExports(es, side))
    ensures forall e :: e in KeptExports(es, side) ==> e.name in NamesOf(es, side)
  {
    if es != [] {
      var before, last := es[..|es| - 1], es[|es| - 1];
      RewriteKeepsNames(before, l, side);
      assert es == before + [last];
    }
  }

  /** The rewritten exports clash exactly where the kept ones do, and no alias clashes with either. */
  lemma AliasesApart(shell: Module, user: Module, a: Aliases)
    requires Linkable(shell, user, a)
    ensures Apart(KeptExports(shell.exports, Shell) + KeptExports(user.exports, User), AliasExports(a))
  {
    var l := LayoutOf(shell, user);
    var s, u := KeptExports(shell.exports, Shell), KeptExports(user.exports, User);
    RewriteKeepsNames(shell.exports, l, Shell);
    RewriteKeepsNames(user.exports, l, User);
    var both: seq<Export>, named: seq<Export> := s + u, AliasExports(a);
    forall i, j | 0 <= i < |both| && 0 <= j < |named| ensures both[i].name != named[j].name {
      assert AliasOk(a[j], shell, user);
      assert both[i] in s || both[i] in u;
    }
  }

  lemma SameNamesDistinct(a: seq<Export>, b: seq<Export>)
    requires SameNames(a, b)
    ensures Distinct(a) <==> Distinct(b)
  {
    forall i, j | 0 <= i < j < |a| ensures (a[i].name != a[j].name) == (b[i].name != b[j].name) {}
  }

  /** The merged module's export names are distinct, as a valid module's must be, exactly when each side's
      are, the two sides share none, and no alias is given twice. */
  lemma ExportNamesDistinctIff(shell: Module, user: Module, a: Aliases)
    requires Linkable(shell, user, a)
    ensures var s := KeptExports(shell.exports, Shell); var u := KeptExports(user.exports, User);
      Distinct(Merged(shell, user, a).exports) <==> Distinct(s) && Distinct(u) && Apart(s, u) && Distinct(AliasExports(a))
  {
    var l := LayoutOf(shell, user);
    var s, u := KeptExports(shell.exports, Shell), KeptExports(user.exports, User);
    var rs, ru := RewriteExports(shell.exports, l, Shell), RewriteExports(user.exports, l, User);
    RewriteKeepsNames(shell.exports, l, Shell);
    RewriteKeepsNames(user.exports, l, User);
    SameNamesDistinct(rs + ru + AliasExports(a), s + u + AliasExports(a));
    DistinctConcat(s, u);
    DistinctConcat(s + u, AliasExports(a));
    AliasesApart(shell, user, a);
  }

  // ---------------------------------------------------------------------------------------------
  // Imports.
  // ---------------------------------------------------------------------------------------------

  predicate FromTvm(i: Import) { i.moduleName == TVM_MM }

  lemma {:induction false} KeptFromTvm(imports: seq<Import>, shellTypes: nat)
    ensures (exists k :: k in KeptImports(imports, shellTypes) && FromTvm(k)) <==> (exists i :: i in imports && FromTvm(i) && !i.desc.FuncImport?)
  {
    if imports != [] {
      var before, last := imports[..|imports| - 1], imports[|imports| - 1];
      KeptFromTvm(before, shellTypes);
      assert imports == before + [last];
      var one := if Internal(last) then [] else [if last.desc.FuncImport? then last.(desc := FuncImport(last.desc.ty + shellTypes)) else last];
      assert KeptImports(imports, shellTypes) == KeptImports(before, shellTypes) + one;
      if i :| i in before && FromTvm(i) && !i.desc.FuncImport? { assert i in imports; }
      if k :| k in KeptImports(before, shellTypes) && FromTvm(k) { assert k in KeptImports(imports, shellTypes); }
      if FromTvm(last) && !last.desc.FuncImport? { assert last in imports && last in one; }
    }
  }

  /** A `tvm_mm` import remains exactly when the user imports something other than a function from there. */
  lemma TvmImportRemainsIff(shell: Module, user: Module, a: Aliases)
    requires Linkable(shell, user, a)
    ensures (exists k :: k in Merged(shell, user, a).imports && FromTvm(k)) <==>
            (exists i :: i in user.imports && FromTvm(i) && (i.desc.GlobalImport? || i.desc.TableImport?))
  {
    KeptFromTvm(user.imports, |shell.types|);
    forall i | i in user.imports ensures !i.desc.FuncImport? <==> i.desc.GlobalImport? || i.desc.TableImport? {
      var k :| 0 <= k < |user.imports| && user.imports[k] == i;
      assert ImportOk(user.imports[k], ExportedFuncs(shell.exports));
    }
  }

  const RUN := Export("run", FuncKind, 0)

  const RUN_SHELL := Module([FuncType([], [])], [], [Func(0, 0, [])], [], [], [], [RUN], None, [], [])

  const RUN_USER := RUN_SHELL.(imports := [Import(TVM_MM, "base", GlobalImport(0))])

  lemma RunLinkable()
    ensures Linkable(RUN_SHELL, RUN_USER, []) && KeptImports(RUN_USER.imports, 1) == RUN_USER.imports
  {
    assert RUN_USER.imports[..0] == [];
  }

  lemma RunTwice()
    ensures var es := Merged(RUN_SHELL, RUN_USER, []).exports; |es| == 2 && es[0].name == es[1].name
  {
    var l := LayoutOf(RUN_SHELL, RUN_USER);
    assert [RUN][..0] == [] && KeptExport(RUN);
    assert RewriteExports([RUN], l, Shell) == [RewriteExport(RUN, l, Shell)];
    assert RewriteExports([RUN], l, User) == [RewriteExport(RUN, l, User)];
  }

  /** A shell and a user module that both export a function `run`, the user also importing a global from
      `tvm_mm`: accepted, with the import still there and the name exported twice. */
  lemma AcceptedButInvalid()
    ensures Linkable(RUN_SHELL, RUN_USER, []) && Merged(RUN_SHELL, RUN_USER, []).imports == RUN_USER.imports
    ensures var es := Merged(RUN_SHELL, RUN_USER, []).exports; |es| == 2 && es[0].name == es[1].name
  {
    RunLinkable();
    RunTwice();
  }

  /** The start function is the shell's. */
  lemma MergedStart(shell: Module, user: Module, a: Aliases, b: Base, x: Externs)
    requires Linkable(shell, user, a) && ExternsOk(user, b, x) && (shell.start.Some? ==> shell.start.value < |shell.funcs|)
    ensures var start := Merged(shell, user, a).start;
      && (start.Some? <==> shell.start.Some?)
      && (start.Some? ==> Addr(MergedInst(Merged(shell, user, a), b, x).funcs, start.value) == Addr(ShellInst(shell, b).funcs, shell.start.value))
  {
    ShellIsMapped(shell, user, a, b, x);
  }

  // ---------------------------------------------------------------------------------------------
  // The default memory.
  // ---------------------------------------------------------------------------------------------

  predicate MemoryValid(m: Memory) { m.maximum.Some? ==> m.minimum <= m.maximum.value }

  /** Pool 0 ends up large enough for the shell and for the user, with valid limits and a maximum no
      smaller than before; the other pools do not change. */
  lemma DefaultMemory(shell: Module, user: Module, a: Aliases)
    requires forall m :: m in shell.memories ==> MemoryValid(m)
    ensures var ms := Merged(shell, user, a).memories;
      && |ms| == |shell.memories|
      && (forall i :: 0 < i < |ms| ==> ms[i] == shell.memories[i])
      && (ms != [] ==>
        && MemoryValid(ms[0]) && ms[0].minimum >= UserMinimum(user)
        && (ms[0].minimum == UserMinimum(user) || ms[0].minimum == shell.memories[0].minimum) && ms[0].minimum >= shell.memories[0].minimum
        && (ms[0].maximum.Some? <==> shell.memories[0].maximum.Some?)
        && (ms[0].maximum.Some? ==> ms[0].maximum.value >= shell.memories[0].maximum.value))
  {
    if shell.memories != [] { assert shell.memories[0] in shell.memories; }
  }

  // ---------------------------------------------------------------------------------------------
  // Constant expressions.
  // ---------------------------------------------------------------------------------------------

  lemma FuncSpace(shell: Module, user: Module, a: Aliases, b: Base, x: Externs, f: nat)
    requires ExternsOk(user, b, x)
    ensures var l := LayoutOf(shell, user);
      Addr(MergedInst(Merged(shell, user, a), b, x).funcs, f) ==
      (if f < l.fwdFuncs then Some(x.funcs[f])
       else if f < l.fwdFuncs + |shell.funcs| + |user.funcs| then Some(b.funcs + (f - l.fwdFuncs)) else None)
  {
    SpaceAddr(x.funcs, b.funcs, |shell.funcs| + |user.funcs|, f);
  }

  /** A function reference copied without renumbering means the same exactly when its index does
      not move, provided the host supplies distinct functions. */
  lemma UserFuncConst(shell: Module, user: Module, a: Aliases, b: Base, x: Externs, f: nat)
    requires Linkable(shell, user, a) && ExportsInRange(shell) && ExternsOk(user, b, x)
    requires forall i, j :: 0 <= i < j < |x.funcs| ==> x.funcs[i] != x.funcs[j]
    requires f < |LayoutOf(shell, user).targets| + |user.funcs|
    ensures var l := LayoutOf(shell, user);
      Addr(MergedInst(Merged(shell, user, a), b, x).funcs, f) == Addr(UserInst(shell, user, b, x).funcs, f) <==> MapFunc(l, User, f) == f
  {
    var l := LayoutOf(shell, user);
    UserFuncAddr(shell, user, a, b, x, f);
    MapInRange(shell, user, a, f);
    FuncSpace(shell, user, a, b, x, f);
    FuncSpace(shell, user, a, b, x, MapFunc(l, User, f));
  }

  lemma MapInRange(shell: Module, user: Module, a: Aliases, f: nat)
    requires Linkable(shell, user, a) && ExportsInRange(shell) && f < |LayoutOf(shell, user).targets| + |user.funcs|
    ensures MapFunc(LayoutOf(shell, user), User, f) < ForwardedFuncs(user.imports) + |shell.funcs| + |user.funcs|
  {
    var fs := ExportedFuncs(shell.exports);
    RewiredInRange(user.imports, fs, |shell.funcs|);
    ForwardedBound(user.imports, fs);
    assert LayoutOf(shell, user).targets == Targets(user.imports, fs);
  }

  /** A global reference copied without renumbering means the same exactly when it names an import
      or the shell has no globals. */
  lemma UserGlobalConst(shell: Module, user: Module, a: Aliases, b: Base, x: Externs, g: nat)
    requires ExternsOk(user, b, x) && g < GlobalImports(user.imports) + |user.globals|
    ensures Addr(MergedInst(Merged(shell, user, a), b, x).globals, g) == Addr(UserInst(shell, user, b, x).globals, g) <==>
      g < GlobalImports(user.imports) || |shell.globals| == 0
  {
    SpaceAddr(x.globals, b.globals, |shell.globals| + |user.globals|, g);
    SpaceAddr(x.globals, b.globals + |shell.globals|, |user.globals|, g);
  }

  /** The shell's own references survive exactly when nothing of their kind is forwarded. */
  lemma ShellConsts(shell: Module, user: Module, a: Aliases, b: Base, x: Externs, i: nat)
    requires ExternsOk(user, b, x)
    ensures var mi := MergedInst(Merged(shell, user, a), b, x); var si := ShellInst(shell, b);
      && (i < |shell.funcs| ==> (Addr(mi.funcs, i) == Addr(si.funcs, i) <==> ForwardedFuncs(user.imports) == 0))
      && (i < |shell.globals| ==> (Addr(mi.globals, i) == Addr(si.globals, i) <==> GlobalImports(user.imports) == 0))
  {
    SpaceAddr(x.funcs, b.funcs, |shell.funcs| + |user.funcs|, i);
    SpaceAddr(x.globals, b.globals, |shell.globals| + |user.globals|, i);
  }

  /** One type, two pools, a global and a data segment. */
  const SMALL_SHELL := Module([FuncType([0], [])], [], [], [], [Memory(1, None), Memory(1, None)], [Global(0, Num(1))], [], None, [],
                              [Data(PassiveData, [])])

  const SMALL_CODE: seq<Op> := [DataDrop(0), Op.Block(0, Indexed(0)), Load(0, 0, 0, 1), CallRef(0, false), Raw(0, [MemIndex(1)])]

  const SMALL_USER := Module([FuncType([], [])], [], [Func(0, 0, SMALL_CODE)], [], [Memory(1, None), Memory(1, None)],
                             [Global(0, Num(2)), Global(0, GlobalGetConst(0))], [], None, [], [Data(PassiveData, [])])

  lemma SmallIndices(ix: Index)
    requires ix == DataIndex(0) || ix == TypeIndex(0) || ix == MemIndex(1)
    ensures !IndexKept(ix, SMALL_SHELL, SMALL_USER)
  {
  }

  lemma SmallLinkable()
    ensures Linkable(SMALL_SHELL, SMALL_USER, [])
  {
  }

  lemma OneCopied(op: Op, shell: Module, user: Module)
    requires |Unmapped(op)| == 1 && !IndexKept(Unmapped(op)[0], shell, user)
    ensures !UserOpKept(op, shell, user)
  {
  }

  /** A user module with two memories that drops its own segment 0, opens a block of its own type 0,
      loads from its memory 1, calls a reference of its type 0, loads a vector from its memory 1 and
      initialises a global from its own global 0: accepted, and none of the six means what it did. */
  lemma AcceptedButChanged()
    ensures Linkable(SMALL_SHELL, SMALL_USER, [])
    ensures forall op :: op in SMALL_CODE ==> !UserOpKept(op, SMALL_SHELL, SMALL_USER)
    ensures !ConstKept(SMALL_USER.globals[1].init, LayoutOf(SMALL_SHELL, SMALL_USER), User)
  {
    SmallLinkable();
    forall op | op in SMALL_CODE ensures !UserOpKept(op, SMALL_SHELL, SMALL_USER) {
      SmallIndices(Unmapped(op)[0]);
      OneCopied(op, SMALL_SHELL, SMALL_USER);
    }
  }

  const EMPTY_STORE := Store.Store([], Mutable([], [], [], [], []))

  /** One function. */
  const ONE_FUNC := Module([FuncType([], [])], [], [Func(0, 0, [])], [], [], [], [], None, [], [])

  /** One function, and a global that refers to it. */
  const ONE_REF := ONE_FUNC.(globals := [Global(0, RefFuncConst(0))])

  lemma OneGlobal(c: Const, v: Wasm.Value)
    requires Eval(c, []) == v
    ensures InitGlobals([c], []) == [v]
  {
    assert [c][1..] == [] && [] + [v] == [v];
  }

  lemma OneRefLinkable()
    ensures Linkable(ONE_FUNC, ONE_REF, [])
  {
  }

  const NO_EXTERNS := Externs([], [], [])

  lemma OneRefSeparate()
    ensures var p := Separate(EMPTY_STORE, ONE_FUNC, ONE_REF, NO_EXTERNS); p.Some? && p.value.mut.globals == [Reference(Some(1))]
  {
    var b := BaseOf(EMPTY_STORE);
    assert GlobalInits(ONE_FUNC.globals, ShellInst(ONE_FUNC, b)) + GlobalInits(ONE_REF.globals, UserInst(ONE_FUNC, ONE_REF, b, NO_EXTERNS))
           == [OfFunc(Some(1))];
    OneGlobal(OfFunc(Some(1)), Reference(Some(1)));
  }

  lemma OneRefInits(m: Module)
    requires m == Merged(ONE_FUNC, ONE_REF, [])
    ensures GlobalInits(m.globals, MergedInst(m, BaseOf(EMPTY_STORE), NO_EXTERNS)) == [OfFunc(Some(0))]
    ensures m.elements == [] && m.data == []
  {
    assert m.globals == ONE_REF.globals && |m.funcs| == 2;
  }

  lemma OneRefMerged()
    ensures var q := Instantiate(EMPTY_STORE, Merged(ONE_FUNC, ONE_REF, []), NO_EXTERNS); q.Some? && q.value.mut.globals == [Reference(Some(0))]
  {
    var m := Merged(ONE_FUNC, ONE_REF, []);
    OneRefInits(m);
    OneGlobal(OfFunc(Some(0)), Reference(Some(0)));
  }

  /** From an empty store: bound to a shell of one function the user's global holds its own function, at
      address 1; in the merged module it holds the shell's, at address 0. */
  lemma GlobalRefersElsewhere()
    ensures Linkable(ONE_FUNC, ONE_REF, [])
    ensures var p := Separate(EMPTY_STORE, ONE_FUNC, ONE_REF, NO_EXTERNS); p.Some? && p.value.mut.globals == [Reference(Some(1))]
    ensures var q := Instantiate(EMPTY_STORE, Merged(ONE_FUNC, ONE_REF, []), NO_EXTERNS); q.Some? && q.value.mut.globals == [Reference(Some(0))]
  {
    OneRefLinkable();
    OneRefSeparate();
    OneRefMerged();
  }
}
