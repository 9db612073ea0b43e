/**
 * What the merged module means. The reference is separate instantiation: the shell on its own, and
 * the user module with its `tvm_mm` imports bound to the shell's exports, its other imports given by
 * the host, and its memory 0 bound to the shell's pool 0. Both ways allocate in the same store.
 */
module LinkMeaning {
  import opened Core
  import opened Wasm
  import opened Linker

  /** How many objects of each kind the store already holds. */
  datatype Base = Base(funcs: nat, tables: nat, mems: nat, globals: nat, elems: nat, datas: nat)

  /** What the host supplies for the forwarded imports, in order. */
  datatype Externs = Externs(funcs: seq<nat>, globals: seq<nat>, tables: seq<nat>)

  function Range(from: nat, n: nat): (r: seq<nat>)
    ensures |r| == n && forall i :: 0 <= i < n ==> r[i] == from + i
  {
    seq(n, i requires 0 <= i < n => from + i)
  }

  function ShellInst(shell: Module, b: Base): Inst {
    Inst(shell.types, Range(b.funcs, |shell.funcs|), Range(b.tables, |shell.tables|), Range(b.mems, |shell.memories|),
         Range(b.globals, |shell.globals|), Range(b.elems, |shell.elements|), Range(b.datas, |shell.data|))
  }

  /** The address a user function import is bound to. */
  function Bind(t: Target, shellFuncs: seq<nat>, host: seq<nat>): nat {
    match t
    case Rewired(s) => if s < |shellFuncs| then shellFuncs[s] else 0
    case Forwarded(k) => if k < |host| then host[k] else 0
  }

  function BindAll(ts: seq<Target>, shellFuncs: seq<nat>, host: seq<nat>): (r: seq<nat>)
    ensures |r| == |ts| && forall i :: 0 <= i < |ts| ==> r[i] == Bind(ts[i], shellFuncs, host)
  {
    seq(|ts|, i requires 0 <= i < |ts| => Bind(ts[i], shellFuncs, host))
  }

  /** The user's memory 0 is the shell's pool 0; any further ones are its own, behind the pools. */
  function UserMems(base: nat, pools: nat, n: nat): seq<nat> {
    if n == 0 then [] else [base] + Range(base + if pools == 0 then 1 else pools, n - 1)
  }

  function UserInst(shell: Module, user: Module, b: Base, x: Externs): Inst {
    Inst(user.types,
         BindAll(LayoutOf(shell, user).targets, ShellInst(shell, b).funcs, x.funcs) + Range(b.funcs + |shell.funcs|, |user.funcs|),
         x.tables + Range(b.tables + |shell.tables|, |user.tables|),
         UserMems(b.mems, |shell.memories|, |user.memories|),
         x.globals + Range(b.globals + |shell.globals|, |user.globals|),
         Range(b.elems + |shell.elements|, |user.elements|),
         Range(b.datas + |shell.data|, |user.data|))
  }

  function MergedInst(m: Module, b: Base, x: Externs): Inst {
    Inst(m.types, x.funcs + Range(b.funcs, |m.funcs|), x.tables + Range(b.tables, |m.tables|), Range(b.mems, |m.memories|),
         x.globals + Range(b.globals, |m.globals|), Range(b.elems, |m.elements|), Range(b.datas, |m.data|))
  }

  /** One address per forwarded import, all allocated before the modules. */
  ghost predicate ExternsOk(user: Module, b: Base, x: Externs) {
    && |x.funcs| == ForwardedFuncs(user.imports) && (forall i :: 0 <= i < |x.funcs| ==> x.funcs[i] < b.funcs)
    && |x.globals| == GlobalImports(user.imports) && (forall i :: 0 <= i < |x.globals| ==> x.globals[i] < b.globals)
    && |x.tables| == TableImports(user.imports) && (forall i :: 0 <= i < |x.tables| ==> x.tables[i] < b.tables)
  }

  /** The shell's function exports name functions it has. */
  ghost predicate ExportsInRange(shell: Module) {
    forall n :: n in ExportedFuncs(shell.exports) ==> ExportedFuncs(shell.exports)[n] < |shell.funcs|
  }

  // ---------------------------------------------------------------------------------------------
  // The index maps carry every index to the same address.
  // ---------------------------------------------------------------------------------------------

  lemma {:induction false} RewiredInRange(imports: seq<Import>, shellFuncs: map<string, nat>, limit: nat)
    requires ImportsOk(imports, shellFuncs) && forall n :: n in shellFuncs ==> shellFuncs[n] < limit
    ensures var ts := Targets(imports, shellFuncs); forall i :: 0 <= i < |ts| && ts[i].Rewired? ==> ts[i].shell < limit
  {
    if imports != [] {
      var before := imports[..|imports| - 1];
      RewiredInRange(before, shellFuncs, limit);
      assert ImportOk(imports[|imports| - 1], shellFuncs);
      assert imports == before + [imports[|imports| - 1]];
      OneMoreImport(before, imports[|imports| - 1], shellFuncs, 0);
    }
  }

  /** An index space made of host addresses followed by freshly allocated ones. */
  lemma SpaceAddr(host: seq<nat>, base: nat, n: nat, i: nat)
    ensures Addr(host + Range(base, n), i) ==
      if i < |host| then Some(host[i]) else if i < |host| + n then Some(base + (i - |host|)) else None
  {
  }

  lemma BindAddr(ts: seq<Target>, shellFuncs: seq<nat>, host: seq<nat>, more: seq<nat>, i: nat)
    requires i < |ts|
    ensures Addr(BindAll(ts, shellFuncs, host) + more, i) == Some(Bind(ts[i], shellFuncs, host))
  {
  }

  /** A user function index and its image name the same store address. */
  lemma UserFuncAddr(shell: Module, user: Module, a: Aliases, b: Base, x: Externs, f: nat)
    requires Linkable(shell, user, a) && ExportsInRange(shell) && ExternsOk(user, b, x)
    ensures Addr(MergedInst(Merged(shell, user, a), b, x).funcs, MapFunc(LayoutOf(shell, user), User, f)) ==
      Addr(UserInst(shell, user, b, x).funcs, f)
  {
    var fs := ExportedFuncs(shell.exports);
    var l := LayoutOf(shell, user);
    var own := Range(b.funcs + |shell.funcs|, |user.funcs|);
    RewiredInRange(user.imports, fs, |shell.funcs|);
    ForwardedBound(user.imports, fs);
    assert l.targets == Targets(user.imports, fs);
    SpaceAddr(x.funcs, b.funcs, |shell.funcs| + |user.funcs|, MapFunc(l, User, f));
    var si := ShellInst(shell, b).funcs;
    if f < |l.targets| {
      BindAddr(l.targets, si, x.funcs, own, f);
    } else {
      SpaceAddr(BindAll(l.targets, si, x.funcs), b.funcs + |shell.funcs|, |user.funcs|, f);
    }
  }

  /** The renumbered instance `mi` means the same as `ui` under the user's index maps. */
  ghost predicate UserMapped(mi: Inst, ui: Inst, l: Layout) {
    && (forall f: nat :: Addr(mi.funcs, MapFunc(l, User, f)) == Addr(ui.funcs, f))
    && (forall g: nat :: Addr(mi.globals, MapGlobal(l, User, g)) == Addr(ui.globals, g))
    && (forall t: nat :: Addr(mi.tables, MapTable(l, User, t)) == Addr(ui.tables, t))
    && (forall t: nat :: TypeAt(mi.types, MapType(l, User, t)) == TypeAt(ui.types, t))
  }

  lemma UserIsMapped(shell: Module, user: Module, a: Aliases, b: Base, x: Externs)
    requires Linkable(shell, user, a) && ExportsInRange(shell) && ExternsOk(user, b, x)
    ensures UserMapped(MergedInst(Merged(shell, user, a), b, x), UserInst(shell, user, b, x), LayoutOf(shell, user))
  {
    forall f: nat
      ensures Addr(MergedInst(Merged(shell, user, a), b, x).funcs, MapFunc(LayoutOf(shell, user), User, f)) == Addr(UserInst(shell, user, b, x).funcs, f)
    {
      UserFuncAddr(shell, user, a, b, x, f);
    }
    UserOtherAddrs(shell, user, a, b, x);
  }

  lemma UserOtherAddrs(shell: Module, user: Module, a: Aliases, b: Base, x: Externs)
    requires ExternsOk(user, b, x)
    ensures var l := LayoutOf(shell, user); var mi := MergedInst(Merged(shell, user, a), b, x); var ui := UserInst(shell, user, b, x);
      && (forall g: nat :: Addr(mi.globals, MapGlobal(l, User, g)) == Addr(ui.globals, g))
      && (forall t: nat :: Addr(mi.tables, MapTable(l, User, t)) == Addr(ui.tables, t))
      && (forall t: nat :: TypeAt(mi.types, MapType(l, User, t)) == TypeAt(ui.types, t))
      && (user.memories != [] && shell.memories != [] ==> Addr(mi.mems, 0) == Addr(ui.mems, 0))
  {
  }

  /** The same for the shell, on the indices the shell has. */
  ghost predicate ShellMapped(mi: Inst, si: Inst, l: Layout) {
    && (forall f: nat :: f < |si.funcs| ==> Addr(mi.funcs, MapFunc(l, Shell, f)) == Addr(si.funcs, f))
    && (forall g: nat :: g < |si.globals| ==> Addr(mi.globals, MapGlobal(l, Shell, g)) == Addr(si.globals, g))
    && (forall t: nat :: t < |si.tables| ==> Addr(mi.tables, MapTable(l, Shell, t)) == Addr(si.tables, t))
    && (forall t: nat :: t < |si.types| ==> TypeAt(mi.types, t) == TypeAt(si.types, t))
    && (forall e: nat :: e < |si.elems| ==> Addr(mi.elems, e) == Addr(si.elems, e))
    && (forall d: nat :: d < |si.datas| ==> Addr(mi.datas, d) == Addr(si.datas, d))
    && mi.mems == si.mems
  }

  lemma ShellIsMapped(shell: Module, user: Module, a: Aliases, b: Base, x: Externs)
    requires ExternsOk(user, b, x)
    ensures ShellMapped(MergedInst(Merged(shell, user, a), b, x), ShellInst(shell, b), LayoutOf(shell, user))
  {
  }

  // ---------------------------------------------------------------------------------------------
  // Operators.
  // ---------------------------------------------------------------------------------------------

  /** The indices of an operator that the rewriter copies. */
  function Unmapped(op: Op): seq<Index> {
    match op
    case Block(_, Indexed(i)) => [TypeIndex(i)]
    case CallRef(ty, _) => [TypeIndex(ty)]
    case TableInit(e, _) => [ElemIndex(e)]
    case ElemDrop(e) => [ElemIndex(e)]
    case MemoryInit(m, d) => [MemIndex(m), DataIndex(d)]
    case DataDrop(d) => [DataIndex(d)]
    case MemoryCopy(d, s) => [MemIndex(d), MemIndex(s)]
    case MemoryFill(m) => [MemIndex(m)]
    case MemorySize(m) => [MemIndex(m)]
    case MemoryGrow(m) => [MemIndex(m)]
    case Load(_, _, _, m) => [MemIndex(m)]
    case Store(_, _, _, m) => [MemIndex(m)]
    case Raw(_, indices) => indices
    case _ => []
  }

  /** A copied index of a space that is the imports, the shell's objects and the user's. */
  predicate SpaceKept(i: nat, imports: nat, shellCount: nat, userCount: nat) {
    i < imports || shellCount == 0 || i >= imports + shellCount + userCount
  }

  /** Memory 0 is kept if it exists on both sides; any other names a pool, or nothing. */
  predicate MemoryKept(m: nat, pools: nat, userCount: nat) {
    if m == 0 then (pools > 0 <==> userCount > 0) else m >= pools && m >= userCount
  }

  predicate IndexKept(ix: Index, shell: Module, user: Module) {
    match ix
    case TypeIndex(i) => TypeAt(user.types, i) == TypeAt(shell.types + user.types, i)
    case MemIndex(i) => MemoryKept(i, |shell.memories|, |user.memories|)
    case DataIndex(i) => SpaceKept(i, 0, |shell.data|, |user.data|)
    case ElemIndex(i) => SpaceKept(i, 0, |shell.elements|, |user.elements|)
    case GlobalIndex(i) => SpaceKept(i, GlobalImports(user.imports), |shell.globals|, |user.globals|)
    case TableIndex(i) => SpaceKept(i, TableImports(user.imports), |shell.tables|, |user.tables|)
  }

  /** The user operators whose meaning the rewriter keeps. */
  predicate UserOpKept(op: Op, shell: Module, user: Module) {
    forall k :: 0 <= k < |Unmapped(op)| ==> IndexKept(Unmapped(op)[k], shell, user)
  }

  ghost predicate Alike(indices: seq<Index>, mi: Inst, own: Inst) {
    forall k :: 0 <= k < |indices| ==> ResolveIndex(indices[k], mi) == ResolveIndex(indices[k], own)
  }

  lemma RawAlike(tag: nat, indices: seq<Index>, mi: Inst, own: Inst)
    ensures Alike(indices, mi, own) <==> Resolve(Raw(tag, indices), mi) == Resolve(Raw(tag, indices), own)
  {
    var a, b := ResolveIndices(indices, mi), ResolveIndices(indices, own);
    if a == b {
      forall k | 0 <= k < |indices| ensures ResolveIndex(indices[k], mi) == ResolveIndex(indices[k], own) { assert a[k] == b[k]; }
    }
  }

  /** Under the user's index maps only the copied indices matter. */
  lemma CopiedDecide(op: Op, mi: Inst, ui: Inst, l: Layout)
    requires UserMapped(mi, ui, l)
    ensures Resolve(RewriteOp(op, l, User), mi) == Resolve(op, ui) <==> Alike(Unmapped(op), mi, ui)
  {
    if op.Raw? {
      RawAlike(op.tag, op.indices, mi, ui);
    } else {
      AtMostTwo(Unmapped(op), mi, ui);
    }
  }

  lemma AtMostTwo(indices: seq<Index>, mi: Inst, own: Inst)
    requires |indices| <= 2
    ensures Alike(indices, mi, own) <==>
      && (|indices| >= 1 ==> ResolveIndex(indices[0], mi) == ResolveIndex(indices[0], own))
      && (|indices| == 2 ==> ResolveIndex(indices[1], mi) == ResolveIndex(indices[1], own))
  {
  }

  lemma CopiedAddr(host: seq<nat>, base: nat, shellCount: nat, userCount: nat, i: nat)
    requires forall k :: 0 <= k < |host| ==> host[k] < base
    ensures Addr(host + Range(base, shellCount + userCount), i) == Addr(host + Range(base + shellCount, userCount), i) <==>
      SpaceKept(i, |host|, shellCount, userCount)
  {
    SpaceAddr(host, base, shellCount + userCount, i);
    SpaceAddr(host, base + shellCount, userCount, i);
  }

  lemma SegmentAddr(base: nat, shellCount: nat, userCount: nat, i: nat)
    ensures Addr(Range(base, shellCount + userCount), i) == Addr(Range(base + shellCount, userCount), i) <==>
      SpaceKept(i, 0, shellCount, userCount)
  {
  }

  lemma MemoryAddr(base: nat, pools: nat, userCount: nat, m: nat)
    ensures Addr(Range(base, pools), m) == Addr(UserMems(base, pools, userCount), m) <==> MemoryKept(m, pools, userCount)
  {
  }

  lemma MergedMemoryCount(memories: seq<Memory>, userMinimum: nat)
    ensures |MergeMemories(memories, userMinimum)| == |memories|
  {
  }

  /** A copied index names the same object exactly when it is kept. */
  lemma IndexMeans(shell: Module, user: Module, a: Aliases, b: Base, x: Externs, ix: Index)
    requires ExternsOk(user, b, x)
    ensures IndexKept(ix, shell, user) <==>
      ResolveIndex(ix, MergedInst(Merged(shell, user, a), b, x)) == ResolveIndex(ix, UserInst(shell, user, b, x))
  {
    MergedMemoryCount(shell.memories, UserMinimum(user));
    match ix
    case TypeIndex(_) =>
    case MemIndex(m) => MemoryAddr(b.mems, |shell.memories|, |user.memories|, m);
    case DataIndex(i) => SegmentAddr(b.datas, |shell.data|, |user.data|, i);
    case ElemIndex(i) => SegmentAddr(b.elems, |shell.elements|, |user.elements|, i);
    case GlobalIndex(i) => CopiedAddr(x.globals, b.globals, |shell.globals|, |user.globals|, i);
    case TableIndex(i) => CopiedAddr(x.tables, b.tables, |shell.tables|, |user.tables|, i);
  }

  /** A rewritten user operator resolves to the same action exactly when its copied indices are kept. */
  lemma UserOpMeans(shell: Module, user: Module, a: Aliases, b: Base, x: Externs, op: Op)
    requires Linkable(shell, user, a) && ExportsInRange(shell) && ExternsOk(user, b, x)
    ensures UserOpKept(op, shell, user) <==>
      Resolve(RewriteOp(op, LayoutOf(shell, user), User), MergedInst(Merged(shell, user, a), b, x)) == Resolve(op, UserInst(shell, user, b, x))
  {
    UserIsMapped(shell, user, a, b, x);
    CopiedDecide(op, MergedInst(Merged(shell, user, a), b, x), UserInst(shell, user, b, x), LayoutOf(shell, user));
    forall k | 0 <= k < |Unmapped(op)|
      ensures IndexKept(Unmapped(op)[k], shell, user) <==>
        ResolveIndex(Unmapped(op)[k], MergedInst(Merged(shell, user, a), b, x)) == ResolveIndex(Unmapped(op)[k], UserInst(shell, user, b, x))
    {
      IndexMeans(shell, user, a, b, x, Unmapped(op)[k]);
    }
  }

  predicate IndexValid(ix: Index, i: Inst) {
    match ix
    case TypeIndex(t) => t < |i.types|
    case MemIndex(m) => m < |i.mems|
    case DataIndex(d) => d < |i.datas|
    case ElemIndex(e) => e < |i.elems|
    case GlobalIndex(g) => g < |i.globals|
    case TableIndex(t) => t < |i.tables|
  }

  /** An operator whose indices exist in the instance. */
  predicate OpValid(op: Op, i: Inst) {
    && (forall k :: 0 <= k < |Unmapped(op)| ==> IndexValid(Unmapped(op)[k], i))
    && match op
       case Call(f) => f < |i.funcs|
       case ReturnCall(f) => f < |i.funcs|
       case RefFunc(f) => f < |i.funcs|
       case CallIndirect(ty, t) => ty < |i.types| && t < |i.tables|
       case ReturnCallIndirect(ty, t) => ty < |i.types| && t < |i.tables|
       case GlobalGet(g) => g < |i.globals|
       case GlobalSet(g) => g < |i.globals|
       case TableGet(t) => t < |i.tables|
       case TableSet(t) => t < |i.tables|
       case TableSize(t) => t < |i.tables|
       case TableGrow(t) => t < |i.tables|
       case TableFill(t) => t < |i.tables|
       case TableCopy(d, s) => d < |i.tables| && s < |i.tables|
       case TableInit(_, t) => t < |i.tables|
       case _ => true
  }

  /** A shell index copied behind forwarded imports of its kind. */
  predicate ShellIndexKept(ix: Index, user: Module) {
    (ix.GlobalIndex? ==> GlobalImports(user.imports) == 0) && (ix.TableIndex? ==> TableImports(user.imports) == 0)
  }

  predicate ShellOpKept(op: Op, user: Module) {
    forall k :: 0 <= k < |Unmapped(op)| ==> ShellIndexKept(Unmapped(op)[k], user)
  }

  lemma ShellIndexMeans(shell: Module, user: Module, a: Aliases, b: Base, x: Externs, ix: Index)
    requires ExternsOk(user, b, x) && IndexValid(ix, ShellInst(shell, b))
    ensures ShellIndexKept(ix, user) <==>
      ResolveIndex(ix, MergedInst(Merged(shell, user, a), b, x)) == ResolveIndex(ix, ShellInst(shell, b))
  {
    ShellIsMapped(shell, user, a, b, x);
    match ix
    case GlobalIndex(i) => SpaceAddr(x.globals, b.globals, |shell.globals| + |user.globals|, i);
    case TableIndex(i) => SpaceAddr(x.tables, b.tables, |shell.tables| + |user.tables|, i);
    case _ =>
  }

  lemma ShellCopiedDecide(op: Op, mi: Inst, si: Inst, l: Layout)
    requires ShellMapped(mi, si, l) && OpValid(op, si)
    ensures Resolve(RewriteOp(op, l, Shell), mi) == Resolve(op, si) <==> Alike(Unmapped(op), mi, si)
  {
    if op.Raw? {
      RawAlike(op.tag, op.indices, mi, si);
    } else {
      AtMostTwo(Unmapped(op), mi, si);
    }
  }

  /** The shell's valid operators keep their meaning, except an undecoded one with a global or table
      index behind forwarded imports. */
  lemma ShellOpMeans(shell: Module, user: Module, a: Aliases, b: Base, x: Externs, op: Op)
    requires ExternsOk(user, b, x) && OpValid(op, ShellInst(shell, b))
    ensures ShellOpKept(op, user) <==>
      Resolve(RewriteOp(op, LayoutOf(shell, user), Shell), MergedInst(Merged(shell, user, a), b, x)) == Resolve(op, ShellInst(shell, b))
  {
    ShellIsMapped(shell, user, a, b, x);
    ShellCopiedDecide(op, MergedInst(Merged(shell, user, a), b, x), ShellInst(shell, b), LayoutOf(shell, user));
    forall k | 0 <= k < |Unmapped(op)|
      ensures ShellIndexKept(Unmapped(op)[k], user) <==>
        ResolveIndex(Unmapped(op)[k], MergedInst(Merged(shell, user, a), b, x)) == ResolveIndex(Unmapped(op)[k], ShellInst(shell, b))
    {
      ShellIndexMeans(shell, user, a, b, x, Unmapped(op)[k]);
    }
  }
}
