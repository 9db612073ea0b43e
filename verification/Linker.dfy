/**
 * The static linker: two parsed modules are merged into one by renumbering their function, global,
 * table and type index spaces and rewriting their bodies. `Merged` is the result in closed form;
 * `LinkWithOptions` builds it with the counters, index maps and section loops of the linker.
 */
module Linker {
  import opened Core
  import opened Wasm

  const TVM_MM := "tvm_mm"

  datatype ImportDesc = FuncImport(ty: nat) | GlobalImport(globalType: nat) | TableImport(tableType: nat) | MemoryImport | TagImport

  datatype Import = Import(moduleName: string, name: string, desc: ImportDesc)

  datatype Func = Func(ty: nat, locals: nat, code: seq<Op>)

  datatype Table = Table(minimum: nat, maximum: Option<nat>, init: Option<ConstExpr>)

  datatype Memory = Memory(minimum: nat, maximum: Option<nat>)

  datatype Global = Global(globalType: nat, init: ConstExpr)

  datatype ExternKind = FuncKind | TableKind | MemoryKind | GlobalKind | TagKind

  datatype Export = Export(name: string, kind: ExternKind, index: nat)

  datatype ElemMode = PassiveElem | DeclaredElem | ActiveElem(table: Option<nat>, offset: ConstExpr)

  datatype ElemItems = Functions(funcs: seq<nat>) | Expressions(exprs: seq<ConstExpr>)

  datatype Element = Element(mode: ElemMode, items: ElemItems)

  datatype DataMode = PassiveData | ActiveData(mem: nat, offset: ConstExpr)

  datatype Data = Data(mode: DataMode, content: bytes)

  datatype Module = Module(
    types: seq<FuncType>, imports: seq<Import>, funcs: seq<Func>, tables: seq<Table>, memories: seq<Memory>,
    globals: seq<Global>, exports: seq<Export>, start: Option<nat>, elements: seq<Element>, data: seq<Data>)

  // ---------------------------------------------------------------------------------------------
  // Imports.
  // ---------------------------------------------------------------------------------------------

  predicate Internal(i: Import) { i.desc.FuncImport? && i.moduleName == TVM_MM }

  /** Where a user function import ends up: a shell function, or the k-th forwarded one. */
  datatype Target = Rewired(shell: nat) | Forwarded(k: nat)

  /** Function imports that survive into the merged module. */
  function ForwardedFuncs(imports: seq<Import>): nat {
    if imports == [] then 0
    else
      var last := imports[|imports| - 1];
      ForwardedFuncs(imports[..|imports| - 1]) + if last.desc.FuncImport? && !Internal(last) then 1 else 0
  }

  function GlobalImports(imports: seq<Import>): nat {
    if imports == [] then 0
    else GlobalImports(imports[..|imports| - 1]) + if imports[|imports| - 1].desc.GlobalImport? then 1 else 0
  }

  function TableImports(imports: seq<Import>): nat {
    if imports == [] then 0
    else TableImports(imports[..|imports| - 1]) + if imports[|imports| - 1].desc.TableImport? then 1 else 0
  }

  /** One target per function import, in order. */
  function Targets(imports: seq<Import>, shellFuncs: map<string, nat>): seq<Target> {
    if imports == [] then []
    else
      var before := imports[..|imports| - 1];
      var last := imports[|imports| - 1];
      if !last.desc.FuncImport? then Targets(before, shellFuncs)
      else if Internal(last) then Targets(before, shellFuncs) + [Rewired(if last.name in shellFuncs then shellFuncs[last.name] else 0)]
      else Targets(before, shellFuncs) + [Forwarded(ForwardedFuncs(before))]
  }

  /** The imports that stay, with function types moved behind the shell's. */
  function KeptImports(imports: seq<Import>, shellTypes: nat): seq<Import> {
    if imports == [] then []
    else
      var last := imports[|imports| - 1];
      KeptImports(imports[..|imports| - 1], shellTypes) +
      if Internal(last) then [] else [if last.desc.FuncImport? then last.(desc := FuncImport(last.desc.ty + shellTypes)) else last]
  }

  predicate ImportOk(i: Import, shellFuncs: map<string, nat>) {
    !i.desc.MemoryImport? && !i.desc.TagImport? && (Internal(i) ==> i.name in shellFuncs)
  }

  /** Exported functions by name; a later entry wins. */
  function ExportedFuncs(exports: seq<Export>): map<string, nat> {
    if exports == [] then map[]
    else
      var before := ExportedFuncs(exports[..|exports| - 1]);
      var last := exports[|exports| - 1];
      if last.kind.FuncKind? then before[last.name := last.index] else before
  }

  // ---------------------------------------------------------------------------------------------
  // Index maps.
  // ---------------------------------------------------------------------------------------------

  datatype Side = Shell | User

  /** Everything the index maps depend on. */
  datatype Layout = Layout(
    targets: seq<Target>, fwdFuncs: nat, globalImports: nat, tableImports: nat,
    shellTypes: nat, shellFuncs: nat, shellGlobals: nat, shellTables: nat)

  function LayoutOf(shell: Module, user: Module): Layout {
    Layout(Targets(user.imports, ExportedFuncs(shell.exports)), ForwardedFuncs(user.imports),
           GlobalImports(user.imports), TableImports(user.imports),
           |shell.types|, |shell.funcs|, |shell.globals|, |shell.tables|)
  }

  function MapType(l: Layout, side: Side, t: nat): nat { if side == Shell then t else t + l.shellTypes }

  function MapFunc(l: Layout, side: Side, f: nat): nat {
    if side == Shell then f + l.fwdFuncs
    else if f < |l.targets| then
      match l.targets[f]
      case Rewired(s) => s + l.fwdFuncs
      case Forwarded(k) => k
    else l.fwdFuncs + l.shellFuncs + (f - |l.targets|)
  }

  /** Every global and table import is forwarded, so imports keep their index. */
  function MapGlobal(l: Layout, side: Side, g: nat): nat {
    if side == Shell then g + l.globalImports
    else if g < l.globalImports then g
    else g + l.shellGlobals
  }

  function MapTable(l: Layout, side: Side, t: nat): nat {
    if side == Shell then t + l.tableImports
    else if t < l.tableImports then t
    else t + l.shellTables
  }

  // ---------------------------------------------------------------------------------------------
  // Bodies.
  // ---------------------------------------------------------------------------------------------

  /** Operators the rewriter does not refuse. One it does not know is not refused but copied. */
  predicate Rewritable(op: Op, side: Side) {
    match op
    case MemoryInit(m, _) => side == User ==> m == 0
    case MemoryCopy(d, s) => side == User ==> d == 0 && s == 0
    case MemoryFill(m) => side == User ==> m == 0
    case MemorySize(m) => side == User ==> m == 0
    case MemoryGrow(m) => side == User ==> m == 0
    case _ => true
  }

  function RewriteOp(op: Op, l: Layout, side: Side): Op {
    match op
    case Call(f) => Call(MapFunc(l, side, f))
    case ReturnCall(f) => ReturnCall(MapFunc(l, side, f))
    case CallIndirect(ty, t) => CallIndirect(MapType(l, side, ty), MapTable(l, side, t))
    case ReturnCallIndirect(ty, t) => ReturnCallIndirect(MapType(l, side, ty), MapTable(l, side, t))
    case RefFunc(f) => RefFunc(MapFunc(l, side, f))
    case GlobalGet(g) => GlobalGet(MapGlobal(l, side, g))
    case GlobalSet(g) => GlobalSet(MapGlobal(l, side, g))
    case TableGet(t) => TableGet(MapTable(l, side, t))
    case TableSet(t) => TableSet(MapTable(l, side, t))
    case TableSize(t) => TableSize(MapTable(l, side, t))
    case TableGrow(t) => TableGrow(MapTable(l, side, t))
    case TableFill(t) => TableFill(MapTable(l, side, t))
    case TableCopy(d, s) => TableCopy(MapTable(l, side, d), MapTable(l, side, s))
    case TableInit(e, t) => TableInit(e, MapTable(l, side, t))
    case _ => op
  }

  function RewriteBody(code: seq<Op>, l: Layout, side: Side): (r: seq<Op>)
    ensures |r| == |code| && forall i :: 0 <= i < |code| ==> r[i] == RewriteOp(code[i], l, side)
  {
    seq(|code|, i requires 0 <= i < |code| => RewriteOp(code[i], l, side))
  }

  predicate BodiesRewritable(funcs: seq<Func>, side: Side) {
    forall i, pc :: 0 <= i < |funcs| && 0 <= pc < |funcs[i].code| ==> Rewritable(funcs[i].code[pc], side)
  }

  /** Only user bodies can be refused. */
  lemma ShellNeverRefused(funcs: seq<Func>)
    ensures BodiesRewritable(funcs, Shell)
  {
    forall i, pc | 0 <= i < |funcs| && 0 <= pc < |funcs[i].code| ensures Rewritable(funcs[i].code[pc], Shell) {}
  }

  /** With nothing forwarded the shell's own indices do not move. */
  predicate NeedsRenumber(l: Layout) { l.fwdFuncs != 0 || l.globalImports != 0 || l.tableImports != 0 }

  lemma RawShellIsRewritten(code: seq<Op>, l: Layout)
    requires !NeedsRenumber(l)
    ensures RewriteBody(code, l, Shell) == code
  {
    forall i | 0 <= i < |code| ensures RewriteOp(code[i], l, Shell) == code[i] {}
  }

  // ---------------------------------------------------------------------------------------------
  // Sections.
  // ---------------------------------------------------------------------------------------------

  function RewriteFunc(f: Func, l: Layout, side: Side): Func {
    Func(MapType(l, side, f.ty), f.locals, RewriteBody(f.code, l, side))
  }

  function RewriteFuncs(funcs: seq<Func>, l: Layout, side: Side): (r: seq<Func>)
    ensures |r| == |funcs|
  {
    seq(|funcs|, i requires 0 <= i < |funcs| => RewriteFunc(funcs[i], l, side))
  }

  /** Pool 0 starts at least as large as the user's memory; the other pools are the shell's. */
  function MergeMemories(memories: seq<Memory>, userMinimum: nat): seq<Memory> {
    if memories == [] then []
    else
      var m := memories[0];
      var grown := if userMinimum > m.minimum then
        Memory(userMinimum, if m.maximum.Some? && m.maximum.value < userMinimum then Some(userMinimum) else m.maximum)
      else m;
      [grown] + memories[1..]
  }

  function UserMinimum(user: Module): nat { if user.memories == [] then 0 else user.memories[0].minimum }

  function RewriteExpr(e: ConstExpr, l: Layout, side: Side): ConstExpr {
    if e.RefFuncConst? then RefFuncConst(MapFunc(l, side, e.f)) else e
  }

  function RewriteItems(items: ElemItems, l: Layout, side: Side): ElemItems {
    match items
    case Functions(fs) => Functions(seq(|fs|, i requires 0 <= i < |fs| => MapFunc(l, side, fs[i])))
    case Expressions(es) => Expressions(seq(|es|, i requires 0 <= i < |es| => RewriteExpr(es[i], l, side)))
  }

  /** An active segment always names its table: a missing index means table 0 of its own module. */
  function RewriteElement(e: Element, l: Layout, side: Side): Element {
    Element(match e.mode
            case ActiveElem(t, offset) => ActiveElem(Some(MapTable(l, side, if t.Some? then t.value else 0)), offset)
            case _ => e.mode,
            RewriteItems(e.items, l, side))
  }

  function RewriteElements(es: seq<Element>, l: Layout, side: Side): (r: seq<Element>)
    ensures |r| == |es|
  {
    seq(|es|, i requires 0 <= i < |es| => RewriteElement(es[i], l, side))
  }

  predicate Supported(e: ConstExpr) { !e.OtherConst? }

  predicate ElementSupported(e: Element) {
    && (e.mode.ActiveElem? ==> Supported(e.mode.offset))
    && (e.items.Expressions? ==> forall i :: 0 <= i < |e.items.exprs| ==> Supported(e.items.exprs[i]))
  }

  predicate DataSupported(d: Data, side: Side) {
    d.mode.ActiveData? ==> Supported(d.mode.offset) && (side == User ==> d.mode.mem == 0)
  }

  /** Memory exports and the housekeeping names of the toolchain are dropped. */
  predicate KeptExport(e: Export) {
    e.kind != MemoryKind && e.name != "__data_end" && e.name != "__heap_base" && e.name != "__indirect_function_table"
  }

  function RewriteExport(e: Export, l: Layout, side: Side): Export {
    match e.kind
    case FuncKind => e.(index := MapFunc(l, side, e.index))
    case TableKind => e.(index := MapTable(l, side, e.index))
    case GlobalKind => e.(index := MapGlobal(l, side, e.index))
    case _ => e
  }

  /** The exports a side contributes; a `User` side loses what is not kept. */
  function RewriteExports(es: seq<Export>, l: Layout, side: Side): seq<Export> {
    if es == [] then []
    else
      var last := es[|es| - 1];
      RewriteExports(es[..|es| - 1], l, side) + if side == User && !KeptExport(last) then [] else [RewriteExport(last, l, side)]
  }

  type Aliases = seq<(string, nat)>

  function AliasExports(aliases: Aliases): (r: seq<Export>)
    ensures |r| == |aliases|
  {
    seq(|aliases|, i requires 0 <= i < |aliases| => Export(aliases[i].0, MemoryKind, aliases[i].1))
  }

  function NamesOf(es: seq<Export>, side: Side): set<string> {
    set e | e in es && (side == User ==> KeptExport(e)) :: e.name
  }

  predicate AliasOk(a: (string, nat), shell: Module, user: Module) {
    a.1 < |shell.memories| && a.0 !in NamesOf(shell.exports, Shell) + NamesOf(user.exports, User)
  }

  // ---------------------------------------------------------------------------------------------
  // Linking.
  // ---------------------------------------------------------------------------------------------

  predicate ConstsSupported(m: Module, side: Side) {
    && (forall i :: 0 <= i < |m.tables| && m.tables[i].init.Some? ==> Supported(m.tables[i].init.value))
    && (forall i :: 0 <= i < |m.globals| ==> Supported(m.globals[i].init))
    && (forall i :: 0 <= i < |m.elements| ==> ElementSupported(m.elements[i]))
    && (forall i :: 0 <= i < |m.data| ==> DataSupported(m.data[i], side))
  }

  predicate ImportsOk(imports: seq<Import>, shellFuncs: map<string, nat>) {
    forall i :: 0 <= i < |imports| ==> ImportOk(imports[i], shellFuncs)
  }

  /** When the linker does not refuse. */
  predicate Linkable(shell: Module, user: Module, aliases: Aliases) {
    && shell.imports == []
    && ImportsOk(user.imports, ExportedFuncs(shell.exports))
    && user.start.None?
    && ConstsSupported(shell, Shell) && ConstsSupported(user, User)
    && BodiesRewritable(user.funcs, User)
    && forall i :: 0 <= i < |aliases| ==> AliasOk(aliases[i], shell, user)
  }

  function Merged(shell: Module, user: Module, aliases: Aliases): Module {
    var l := LayoutOf(shell, user);
    Module(
      shell.types + user.types,
      KeptImports(user.imports, |shell.types|),
      RewriteFuncs(shell.funcs, l, Shell) + RewriteFuncs(user.funcs, l, User),
      shell.tables + user.tables,
      MergeMemories(shell.memories, UserMinimum(user)),
      shell.globals + user.globals,
      RewriteExports(shell.exports, l, Shell) + RewriteExports(user.exports, l, User) + AliasExports(aliases),
      if shell.start.Some? then Some(MapFunc(l, Shell, shell.start.value)) else None,
      RewriteElements(shell.elements, l, Shell) + RewriteElements(user.elements, l, User),
      shell.data + user.data)
  }

  // ---------------------------------------------------------------------------------------------
  // The linker's own loops.
  // ---------------------------------------------------------------------------------------------

  /** What one walk over the user's imports leaves behind: the counters and the index maps. */
  datatype Walk = Walk(
    funcImports: nat, globalImports: nat, tableImports: nat,
    fwdFuncs: nat, fwdGlobals: nat, fwdTables: nat,
    rewrite: map<nat, nat>, funcToMerged: map<nat, nat>, globalToMerged: map<nat, nat>, tableToMerged: map<nat, nat>,
    kept: seq<Import>)

  /** The walk's maps are the closed-form targets, entry by entry. */
  ghost predicate Describes(w: Walk, imports: seq<Import>, shellFuncs: map<string, nat>, shellTypes: nat) {
    && FuncsDescribed(w.funcImports, w.rewrite, w.funcToMerged, Targets(imports, shellFuncs))
    && w.fwdFuncs == ForwardedFuncs(imports)
    && w.globalImports == w.fwdGlobals == GlobalImports(imports) && IdentityOn(w.globalToMerged, w.globalImports)
    && w.tableImports == w.fwdTables == TableImports(imports) && IdentityOn(w.tableToMerged, w.tableImports)
    && w.kept == KeptImports(imports, shellTypes)
  }

  ghost predicate FuncsDescribed(count: nat, rewrite: map<nat, nat>, toMerged: map<nat, nat>, targets: seq<Target>) {
    && count == |targets|
    && (forall i: nat :: i in rewrite <==> i < |targets| && targets[i].Rewired?)
    && (forall i: nat :: i in toMerged <==> i < |targets| && targets[i].Forwarded?)
    && (forall i :: i in rewrite ==> rewrite[i] == targets[i].shell)
    && (forall i :: i in toMerged ==> toMerged[i] == targets[i].k)
  }

  ghost predicate IdentityOn(m: map<nat, nat>, n: nat) {
    (forall i: nat :: i in m <==> i < n) && forall i :: i in m ==> m[i] == i
  }

  function WalkOne(w: Walk, i: Import, shellFuncs: map<string, nat>, shellTypes: nat): Walk
    requires ImportOk(i, shellFuncs)
  {
    if i.desc.FuncImport? then
      if i.moduleName == TVM_MM then w.(funcImports := w.funcImports + 1, rewrite := w.rewrite[w.funcImports := shellFuncs[i.name]])
      else w.(funcImports := w.funcImports + 1, fwdFuncs := w.fwdFuncs + 1,
              funcToMerged := w.funcToMerged[w.funcImports := w.fwdFuncs], kept := w.kept + [i.(desc := FuncImport(i.desc.ty + shellTypes))])
    else if i.desc.GlobalImport? then
      w.(globalImports := w.globalImports + 1, fwdGlobals := w.fwdGlobals + 1,
         globalToMerged := w.globalToMerged[w.globalImports := w.fwdGlobals], kept := w.kept + [i])
    else
      w.(tableImports := w.tableImports + 1, fwdTables := w.fwdTables + 1,
         tableToMerged := w.tableToMerged[w.tableImports := w.fwdTables], kept := w.kept + [i])
  }

  lemma RewiredDescribed(count: nat, rewrite: map<nat, nat>, toMerged: map<nat, nat>, targets: seq<Target>, s: nat)
    requires FuncsDescribed(count, rewrite, toMerged, targets)
    ensures FuncsDescribed(count + 1, rewrite[count := s], toMerged, targets + [Rewired(s)])
  {
  }

  lemma ForwardedDescribed(count: nat, rewrite: map<nat, nat>, toMerged: map<nat, nat>, targets: seq<Target>, k: nat)
    requires FuncsDescribed(count, rewrite, toMerged, targets)
    ensures FuncsDescribed(count + 1, rewrite, toMerged[count := k], targets + [Forwarded(k)])
  {
  }

  lemma IdentityGrows(m: map<nat, nat>, n: nat)
    requires IdentityOn(m, n)
    ensures IdentityOn(m[n := n], n + 1)
  {
  }

  /** The closed forms over one more import. */
  lemma OneMoreImport(imports: seq<Import>, i: Import, shellFuncs: map<string, nat>, shellTypes: nat)
    ensures var now := imports + [i];
      && ForwardedFuncs(now) == ForwardedFuncs(imports) + (if i.desc.FuncImport? && !Internal(i) then 1 else 0)
      && GlobalImports(now) == GlobalImports(imports) + (if i.desc.GlobalImport? then 1 else 0)
      && TableImports(now) == TableImports(imports) + (if i.desc.TableImport? then 1 else 0)
      && KeptImports(now, shellTypes) == KeptImports(imports, shellTypes) +
         (if Internal(i) then [] else [if i.desc.FuncImport? then i.(desc := FuncImport(i.desc.ty + shellTypes)) else i])
      && Targets(now, shellFuncs) == Targets(imports, shellFuncs) +
         (if !i.desc.FuncImport? then []
          else if Internal(i) then [Rewired(if i.name in shellFuncs then shellFuncs[i.name] else 0)]
          else [Forwarded(ForwardedFuncs(imports))])
  {
    assert (imports + [i])[..|imports|] == imports;
  }

  lemma WalkFuncDescribes(w: Walk, imports: seq<Import>, i: Import, shellFuncs: map<string, nat>, shellTypes: nat)
    requires Describes(w, imports, shellFuncs, shellTypes) && ImportOk(i, shellFuncs) && i.desc.FuncImport?
    ensures Describes(WalkOne(w, i, shellFuncs, shellTypes), imports + [i], shellFuncs, shellTypes)
  {
    OneMoreImport(imports, i, shellFuncs, shellTypes);
    var targets := Targets(imports, shellFuncs);
    if Internal(i) {
      RewiredDescribed(w.funcImports, w.rewrite, w.funcToMerged, targets, shellFuncs[i.name]);
    } else {
      ForwardedDescribed(w.funcImports, w.rewrite, w.funcToMerged, targets, w.fwdFuncs);
    }
  }

  lemma WalkOtherDescribes(w: Walk, imports: seq<Import>, i: Import, shellFuncs: map<string, nat>, shellTypes: nat)
    requires Describes(w, imports, shellFuncs, shellTypes) && ImportOk(i, shellFuncs) && !i.desc.FuncImport?
    ensures Describes(WalkOne(w, i, shellFuncs, shellTypes), imports + [i], shellFuncs, shellTypes)
  {
    OneMoreImport(imports, i, shellFuncs, shellTypes);
    assert Targets(imports, shellFuncs) + [] == Targets(imports, shellFuncs);
    if i.desc.GlobalImport? { IdentityGrows(w.globalToMerged, w.globalImports); } else { IdentityGrows(w.tableToMerged, w.tableImports); }
  }

  method WalkImports(imports: seq<Import>, shellFuncs: map<string, nat>, shellTypes: nat) returns (r: Option<Walk>)
    ensures r.Some? <==> ImportsOk(imports, shellFuncs)
    ensures r.Some? ==> Describes(r.value, imports, shellFuncs, shellTypes)
  {
    var w := Walk(0, 0, 0, 0, 0, 0, map[], map[], map[], map[], []);
    var n := 0;
    while n < |imports|
      invariant 0 <= n <= |imports|
      invariant ImportsOk(imports[..n], shellFuncs)
      invariant Describes(w, imports[..n], shellFuncs, shellTypes)
    {
      var i := imports[n];
      if i.desc.MemoryImport? || i.desc.TagImport? { return None; }
      if Internal(i) && i.name !in shellFuncs { return None; }
      assert imports[..n + 1] == imports[..n] + [i];
      if i.desc.FuncImport? {
        WalkFuncDescribes(w, imports[..n], i, shellFuncs, shellTypes);
      } else {
        WalkOtherDescribes(w, imports[..n], i, shellFuncs, shellTypes);
      }
      w := WalkOne(w, i, shellFuncs, shellTypes);
      n := n + 1;
    }
    assert imports[..n] == imports;
    return Some(w);
  }

  /** The closures built from the walk's maps are the index maps. */
  lemma WalkMaps(w: Walk, shell: Module, user: Module, f: nat, g: nat, t: nat)
    requires Describes(w, user.imports, ExportedFuncs(shell.exports), |shell.types|)
    ensures var l := LayoutOf(shell, user);
      && MapFunc(l, User, f) ==
         (if f < w.funcImports then
            (if f in w.rewrite then w.rewrite[f] + w.fwdFuncs else if f in w.funcToMerged then w.funcToMerged[f] else 0)
          else w.fwdFuncs + |shell.funcs| + (f - w.funcImports))
      && MapGlobal(l, User, g) ==
         (if g < w.globalImports then (if g in w.globalToMerged then w.globalToMerged[g] else 0)
          else w.fwdGlobals + |shell.globals| + (g - w.globalImports))
      && MapTable(l, User, t) ==
         (if t < w.tableImports then (if t in w.tableToMerged then w.tableToMerged[t] else 0)
          else w.fwdTables + |shell.tables| + (t - w.tableImports))
  {
  }

  /** Bodies are rewritten operator by operator and refused at the first bulk memory operator, size or
      grow of the user that names a memory other than 0. */
  method RewriteFunctionBody(code: seq<Op>, l: Layout, side: Side) returns (r: Option<seq<Op>>)
    ensures r.Some? <==> forall pc :: 0 <= pc < |code| ==> Rewritable(code[pc], side)
    ensures r.Some? ==> r.value == RewriteBody(code, l, side)
  {
    var out := [];
    var pc := 0;
    while pc < |code|
      invariant 0 <= pc <= |code|
      invariant forall k :: 0 <= k < pc ==> Rewritable(code[k], side)
      invariant out == RewriteBody(code, l, side)[..pc]
    {
      if !Rewritable(code[pc], side) { return None; }
      out := out + [RewriteOp(code[pc], l, side)];
      pc := pc + 1;
    }
    return Some(out);
  }

  method RewriteCode(funcs: seq<Func>, l: Layout, side: Side) returns (r: Option<seq<Func>>)
    ensures r.Some? <==> BodiesRewritable(funcs, side)
    ensures r.Some? ==> r.value == RewriteFuncs(funcs, l, side)
  {
    var out := [];
    var i := 0;
    while i < |funcs|
      invariant 0 <= i <= |funcs|
      invariant forall k, pc :: 0 <= k < i && 0 <= pc < |funcs[k].code| ==> Rewritable(funcs[k].code[pc], side)
      invariant out == RewriteFuncs(funcs, l, side)[..i]
    {
      var body := RewriteFunctionBody(funcs[i].code, l, side);
      if body.None? { return None; }
      out := out + [Func(MapType(l, side, funcs[i].ty), funcs[i].locals, body.value)];
      i := i + 1;
    }
    return Some(out);
  }

  /** Exports in order, skipping the ones the user side loses, then the aliases. */
  method PushExports(shell: Module, user: Module, l: Layout, aliases: Aliases) returns (r: Option<seq<Export>>)
    ensures r.Some? <==> forall i :: 0 <= i < |aliases| ==> AliasOk(aliases[i], shell, user)
    ensures r.Some? ==> r.value == RewriteExports(shell.exports, l, Shell) + RewriteExports(user.exports, l, User) + AliasExports(aliases)
  {
    var out := PushSide(shell.exports, l, Shell);
    var more := PushSide(user.exports, l, User);
    out := out + more;
    var names := NamesOf(shell.exports, Shell) + NamesOf(user.exports, User);
    ghost var start := out;
    var i := 0;
    while i < |aliases|
      invariant 0 <= i <= |aliases|
      invariant forall k :: 0 <= k < i ==> AliasOk(aliases[k], shell, user)
      invariant out == start + AliasExports(aliases)[..i]
    {
      if aliases[i].1 >= |shell.memories| { return None; }
      if aliases[i].0 in names { return None; }
      out := out + [Export(aliases[i].0, MemoryKind, aliases[i].1)];
      i := i + 1;
    }
    return Some(out);
  }

  method PushSide(es: seq<Export>, l: Layout, side: Side) returns (out: seq<Export>)
    ensures out == RewriteExports(es, l, side)
  {
    out := [];
    var i := 0;
    while i < |es|
      invariant 0 <= i <= |es|
      invariant out == RewriteExports(es[..i], l, side)
    {
      assert es[..i + 1][..i] == es[..i];
      if side == Shell || KeptExport(es[i]) {
        out := out + [RewriteExport(es[i], l, side)];
      }
      i := i + 1;
    }
    assert es[..i] == es;
  }

  method PushMemories(memories: seq<Memory>, userMinimum: nat) returns (out: seq<Memory>)
    ensures out == MergeMemories(memories, userMinimum)
  {
    out := [];
    var i := 0;
    while i < |memories|
      invariant 0 <= i <= |memories|
      invariant out == MergeMemories(memories, userMinimum)[..i]
      invariant |MergeMemories(memories, userMinimum)| == |memories|
    {
      var effective := memories[i];
      if i == 0 && userMinimum > effective.minimum {
        effective := effective.(minimum := userMinimum);
        if effective.maximum.Some? && effective.maximum.value < userMinimum {
          effective := effective.(maximum := Some(userMinimum));
        }
      }
      out := out + [effective];
      i := i + 1;
    }
  }

  method LinkWithOptions(shell: Module, user: Module, aliases: Aliases) returns (r: Option<Module>)
    ensures r == if Linkable(shell, user, aliases) then Some(Merged(shell, user, aliases)) else None
  {
    if shell.imports != [] { return None; }
    if !ConstsSupported(shell, Shell) || !ConstsSupported(user, User) { return None; }
    var walk := WalkImports(user.imports, ExportedFuncs(shell.exports), |shell.types|);
    if walk.None? { return None; }
    if user.start.Some? { return None; }
    var l := LayoutOf(shell, user);
    var memories := PushMemories(shell.memories, UserMinimum(user));
    var exports := PushExports(shell, user, l, aliases);
    if exports.None? { return None; }
    var shellFuncs := shell.funcs;
    if walk.value.fwdFuncs != 0 || walk.value.fwdGlobals != 0 || walk.value.fwdTables != 0 {
      var rewritten := RewriteCode(shell.funcs, l, Shell);
      ShellNeverRefused(shell.funcs);
      shellFuncs := rewritten.value;
    } else {
      RawShell(shell.funcs, l);
    }
    var userFuncs := RewriteCode(user.funcs, l, User);
    if userFuncs.None? { return None; }
    return Some(Module(
      shell.types + user.types, walk.value.kept, shellFuncs + userFuncs.value, shell.tables + user.tables,
      memories, shell.globals + user.globals, exports.value,
      if shell.start.Some? then Some(MapFunc(l, Shell, shell.start.value)) else None,
      RewriteElements(shell.elements, l, Shell) + RewriteElements(user.elements, l, User),
      shell.data + user.data));
  }

  lemma RawShell(funcs: seq<Func>, l: Layout)
    requires !NeedsRenumber(l)
    ensures RewriteFuncs(funcs, l, Shell) == funcs
  {
    forall i | 0 <= i < |funcs| ensures RewriteFuncs(funcs, l, Shell)[i] == funcs[i] { RawShellIsRewritten(funcs[i].code, l); }
  }

  // ---------------------------------------------------------------------------------------------
  // The maps tile the merged index space.
  // ---------------------------------------------------------------------------------------------

  /** Forwarded imports are numbered in order. */
  lemma {:induction false} ForwardedAscend(imports: seq<Import>, shellFuncs: map<string, nat>, i: nat, j: nat)
    requires i < j < |Targets(imports, shellFuncs)|
    ensures var ts := Targets(imports, shellFuncs); ts[i].Forwarded? && ts[j].Forwarded? ==> ts[i].k < ts[j].k
  {
    if imports != [] {
      var before := imports[..|imports| - 1];
      assert imports == before + [imports[|imports| - 1]];
      OneMoreImport(before, imports[|imports| - 1], shellFuncs, 0);
      ForwardedBound(before, shellFuncs);
      if j < |Targets(before, shellFuncs)| { ForwardedAscend(before, shellFuncs, i, j); }
    }
  }

  lemma {:induction false} ForwardedBound(imports: seq<Import>, shellFuncs: map<string, nat>)
    ensures var ts := Targets(imports, shellFuncs);
      forall i :: 0 <= i < |ts| && ts[i].Forwarded? ==> ts[i].k < ForwardedFuncs(imports)
  {
    if imports != [] {
      var before := imports[..|imports| - 1];
      ForwardedBound(before, shellFuncs);
      assert imports == before + [imports[|imports| - 1]];
      OneMoreImport(before, imports[|imports| - 1], shellFuncs, 0);
    }
  }

  /** Every merged index below the forwarded count is some forwarded import. */
  lemma {:induction false} ForwardedHit(imports: seq<Import>, shellFuncs: map<string, nat>, k: nat) returns (i: nat)
    requires k < ForwardedFuncs(imports)
    ensures i < |Targets(imports, shellFuncs)| && Targets(imports, shellFuncs)[i] == Forwarded(k)
  {
    var before := imports[..|imports| - 1];
    if k < ForwardedFuncs(before) { i := ForwardedHit(before, shellFuncs, k); } else { i := |Targets(before, shellFuncs)|; }
  }

  /** User functions other than rewired imports keep apart, and stay clear of the shell's. */
  lemma UserFuncsInjective(shell: Module, user: Module, i: nat, j: nat, s: nat)
    requires var l := LayoutOf(shell, user);
      && i != j
      && (i < |l.targets| ==> l.targets[i].Forwarded?) && (j < |l.targets| ==> l.targets[j].Forwarded?)
    ensures var l := LayoutOf(shell, user);
      && MapFunc(l, User, i) != MapFunc(l, User, j)
      && (s < |shell.funcs| ==> MapFunc(l, Shell, s) != MapFunc(l, User, i))
  {
    var fs := ExportedFuncs(shell.exports);
    var l := LayoutOf(shell, user);
    ForwardedBound(user.imports, fs);
    assert l.targets == Targets(user.imports, fs);
    if i < |l.targets| && j < |l.targets| {
      if i < j { ForwardedAscend(user.imports, fs, i, j); } else { ForwardedAscend(user.imports, fs, j, i); }
    }
  }

  /** Every function of the merged module is a forwarded import, a shell function or a user function. */
  lemma MergedFuncOrigin(shell: Module, user: Module, m: nat) returns (side: Side, i: nat)
    requires m < ForwardedFuncs(user.imports) + |shell.funcs| + |user.funcs|
    ensures MapFunc(LayoutOf(shell, user), side, i) == m
    ensures side == Shell ==> i < |shell.funcs|
    ensures side == User ==>
      var l := LayoutOf(shell, user);
      i < |l.targets| + |user.funcs| && (i < |l.targets| ==> l.targets[i] == Forwarded(m))
  {
    var l := LayoutOf(shell, user);
    if m < l.fwdFuncs {
      side := User;
      i := ForwardedHit(user.imports, ExportedFuncs(shell.exports), m);
    } else if m < l.fwdFuncs + l.shellFuncs {
      side, i := Shell, m - l.fwdFuncs;
    } else {
      side, i := User, |l.targets| + (m - l.fwdFuncs - l.shellFuncs);
    }
  }
}
