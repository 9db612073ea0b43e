/**
 * Linking preserves meaning: instantiating the merged module leaves the same store as instantiating
 * the two modules separately, and from then on every run of every function agrees step by step.
 */
module Instantiation {
  import opened Core
  import opened Wasm
  import opened Linker
  import opened LinkMeaning

  // ---------------------------------------------------------------------------------------------
  // What instantiation allocates.
  // ---------------------------------------------------------------------------------------------

  function TypeOr(types: seq<FuncType>, i: nat): FuncType { if i < |types| then types[i] else FuncType([], []) }

  function FuncInsts(types: seq<FuncType>, funcs: seq<Func>, inst: Inst): (r: seq<FuncInst>)
    ensures |r| == |funcs|
    ensures forall i :: 0 <= i < |funcs| ==> r[i] == WasmFunc(TypeOr(types, funcs[i].ty), inst, funcs[i].locals, funcs[i].code)
  {
    seq(|funcs|, i requires 0 <= i < |funcs| => WasmFunc(TypeOr(types, funcs[i].ty), inst, funcs[i].locals, funcs[i].code))
  }

  /** A constant expression with its index resolved. */
  datatype Const = Value(v: int) | NullRef | OfGlobal(addr: Option<nat>) | OfFunc(addr: Option<nat>) | Bad

  function ResolveConst(e: ConstExpr, inst: Inst): Const {
    match e
    case Num(v) => Value(v)
    case RefNull => NullRef
    case GlobalGetConst(g) => OfGlobal(Addr(inst.globals, g))
    case RefFuncConst(f) => OfFunc(Addr(inst.funcs, f))
    case OtherConst => Bad
  }

  function Eval(c: Const, globals: seq<Wasm.Value>): Wasm.Value {
    match c
    case Value(v) => Number(v)
    case OfGlobal(a) => if a.Some? && a.value < |globals| then globals[a.value] else Reference(None)
    case OfFunc(a) => Reference(a)
    case _ => Reference(None)
  }

  /** Globals are initialised one after another, each seeing the ones before it. */
  function InitGlobals(inits: seq<Const>, globals: seq<Wasm.Value>): seq<Wasm.Value> {
    if inits == [] then globals else InitGlobals(inits[1..], globals + [Eval(inits[0], globals)])
  }

  function GlobalInits(globals: seq<Global>, inst: Inst): (r: seq<Const>)
    ensures |r| == |globals| && forall i :: 0 <= i < |globals| ==> r[i] == ResolveConst(globals[i].init, inst)
  {
    seq(|globals|, i requires 0 <= i < |globals| => ResolveConst(globals[i].init, inst))
  }

  datatype TablePlan = TablePlan(minimum: nat, fill: Const)

  function PlanTable(t: Table, inst: Inst): TablePlan {
    TablePlan(t.minimum, if t.init.Some? then ResolveConst(t.init.value, inst) else NullRef)
  }

  function TablePlans(tables: seq<Table>, inst: Inst): (r: seq<TablePlan>)
    ensures |r| == |tables| && forall i :: 0 <= i < |tables| ==> r[i] == PlanTable(tables[i], inst)
  {
    seq(|tables|, i requires 0 <= i < |tables| => PlanTable(tables[i], inst))
  }

  function ItemConsts(items: ElemItems, inst: Inst): seq<Const> {
    match items
    case Functions(fs) => seq(|fs|, i requires 0 <= i < |fs| => OfFunc(Addr(inst.funcs, fs[i])))
    case Expressions(es) => seq(|es|, i requires 0 <= i < |es| => ResolveConst(es[i], inst))
  }

  function ElemPlans(es: seq<Element>, inst: Inst): (r: seq<seq<Const>>)
    ensures |r| == |es| && forall i :: 0 <= i < |es| ==> r[i] == ItemConsts(es[i].items, inst)
  {
    seq(|es|, i requires 0 <= i < |es| => ItemConsts(es[i].items, inst))
  }

  /** What an element or data segment does when its module is instantiated. */
  datatype Init =
    | CopyElem(table: Option<nat>, offset: Const, elem: nat)
    | DropElem(elem: nat)
    | CopyData(mem: Option<nat>, offset: Const, segment: nat)
    | Keep

  function ElemInit(e: Element, addr: nat, inst: Inst): Init {
    match e.mode
    case PassiveElem => Keep
    case DeclaredElem => DropElem(addr)
    case ActiveElem(t, offset) => CopyElem(Addr(inst.tables, if t.Some? then t.value else 0), ResolveConst(offset, inst), addr)
  }

  function ElemInits(es: seq<Element>, from: nat, inst: Inst): (r: seq<Init>)
    ensures |r| == |es| && forall i :: 0 <= i < |es| ==> r[i] == ElemInit(es[i], from + i, inst)
  {
    seq(|es|, i requires 0 <= i < |es| => ElemInit(es[i], from + i, inst))
  }

  function DataInit(d: Data, addr: nat, inst: Inst): Init {
    match d.mode
    case PassiveData => Keep
    case ActiveData(m, offset) => CopyData(Addr(inst.mems, m), ResolveConst(offset, inst), addr)
  }

  function DataInits(ds: seq<Data>, from: nat, inst: Inst): (r: seq<Init>)
    ensures |r| == |ds| && forall i :: 0 <= i < |ds| ==> r[i] == DataInit(ds[i], from + i, inst)
  {
    seq(|ds|, i requires 0 <= i < |ds| => DataInit(ds[i], from + i, inst))
  }

  // ---------------------------------------------------------------------------------------------
  // Running the active segments.
  // ---------------------------------------------------------------------------------------------

  function Put<T>(s: seq<T>, at: int, values: seq<T>): (r: Option<seq<T>>)
    ensures r.Some? ==> |r.value| == |s|
  {
    if at < 0 || at + |values| > |s| then None else Some(s[..at] + values + s[at + |values|..])
  }

  function At(offset: Const, globals: seq<Wasm.Value>): int {
    var v := Eval(offset, globals);
    if v.Number? then v.n else -1
  }

  /** One segment; `None` is a trap. */
  function Apply(i: Init, m: Mutable): Option<Mutable> {
    match i
    case Keep => Some(m)
    case DropElem(e) => Some(if e < |m.elems| then m.(elems := m.elems[e := []]) else m)
    case CopyElem(t, offset, e) =>
      if t.None? || t.value >= |m.tables| || e >= |m.elems| then None
      else
        var table := Put(m.tables[t.value], At(offset, m.globals), m.elems[e]);
        if table.None? then None else Some(m.(tables := m.tables[t.value := table.value], elems := m.elems[e := []]))
    case CopyData(mem, offset, d) =>
      if mem.None? || mem.value >= |m.mems| || d >= |m.datas| then None
      else
        var memory := Put(m.mems[mem.value], At(offset, m.globals), m.datas[d]);
        if memory.None? then None else Some(m.(mems := m.mems[mem.value := memory.value], datas := m.datas[d := []]))
  }

  function ApplyAll(inits: seq<Init>, m: Mutable): Option<Mutable> {
    if inits == [] then Some(m)
    else
      var next := Apply(inits[0], m);
      if next.None? then None else ApplyAll(inits[1..], next.value)
  }

  predicate TouchesElems(i: Init) { !i.CopyData? }

  predicate TouchesData(i: Init) { i.CopyData? || i.Keep? }

  predicate ElemsOnly(inits: seq<Init>) { forall i :: 0 <= i < |inits| ==> TouchesElems(inits[i]) }

  predicate DatasOnly(inits: seq<Init>) { forall i :: 0 <= i < |inits| ==> TouchesData(inits[i]) }

  /** Element and data segments touch different parts of the store, so their order is immaterial,
      even where one of them traps. */
  lemma Commute(d: Init, e: Init, m: Mutable)
    requires TouchesData(d) && TouchesElems(e)
    ensures ApplyAll([d, e], m) == ApplyAll([e, d], m)
  {
    assert [d, e][1..] == [e] && [e, d][1..] == [d];
    var x, y := Apply(d, m), Apply(e, m);
    if x.Some? && y.Some? {
      assert ApplyAll([e], x.value) == Apply(e, x.value);
      assert ApplyAll([d], y.value) == Apply(d, y.value);
    }
    if x.Some? && y.None? { assert Apply(e, x.value).None?; }
    if y.Some? && x.None? { assert Apply(d, y.value).None?; }
  }

  lemma {:induction false} ApplyConcat(a: seq<Init>, b: seq<Init>, m: Mutable)
    ensures ApplyAll(a + b, m) == if ApplyAll(a, m).None? then None else ApplyAll(b, ApplyAll(a, m).value)
    decreases |a|
  {
    if a == [] { assert a + b == b; } else {
      assert (a + b)[1..] == a[1..] + b;
      var next := Apply(a[0], m);
      if next.Some? { ApplyConcat(a[1..], b, next.value); }
    }
  }

  lemma {:induction false} MoveOne(d: Init, es: seq<Init>, m: Mutable)
    requires TouchesData(d) && ElemsOnly(es)
    ensures ApplyAll([d] + es, m) == ApplyAll(es + [d], m)
    decreases |es|
  {
    if es == [] {
      assert [d] + es == es + [d];
    } else {
      var e, rest := es[0], es[1..];
      assert [d] + es == [d, e] + rest && es + [d] == [e] + (rest + [d]) && [e, d] + rest == [e] + ([d] + rest);
      ApplyConcat([d, e], rest, m);
      Commute(d, e, m);
      ApplyConcat([e, d], rest, m);
      ApplyConcat([e], [d] + rest, m);
      ApplyConcat([e], rest + [d], m);
      var next := ApplyAll([e], m);
      if next.Some? { MoveOne(d, rest, next.value); }
    }
  }

  lemma {:induction false} MoveAll(ds: seq<Init>, es: seq<Init>, m: Mutable)
    requires DatasOnly(ds) && ElemsOnly(es)
    ensures ApplyAll(ds + es, m) == ApplyAll(es + ds, m)
    decreases |ds|
  {
    if ds == [] {
      assert ds + es == es && es + ds == es;
    } else {
      var d, rest := ds[0], ds[1..];
      assert ds + es == [d] + (rest + es) && [d] + (es + rest) == ([d] + es) + rest && (es + [d]) + rest == es + ds;
      ApplyConcat([d], rest + es, m);
      ApplyConcat([d], es + rest, m);
      var next := ApplyAll([d], m);
      if next.Some? { MoveAll(rest, es, next.value); }
      ApplyConcat([d] + es, rest, m);
      MoveOne(d, es, m);
      ApplyConcat(es + [d], rest, m);
    }
  }

  /** Shell segments then user segments, or all element segments then all data segments. */
  lemma SegmentOrder(se: seq<Init>, sd: seq<Init>, ue: seq<Init>, ud: seq<Init>, m: Mutable)
    requires DatasOnly(sd) && ElemsOnly(ue)
    ensures ApplyAll(se + sd + ue + ud, m) == ApplyAll((se + ue) + (sd + ud), m)
  {
    assert se + sd + ue + ud == se + ((sd + ue) + ud) && (se + ue) + (sd + ud) == se + ((ue + sd) + ud);
    ApplyConcat(se, (sd + ue) + ud, m);
    ApplyConcat(se, (ue + sd) + ud, m);
    var next := ApplyAll(se, m);
    if next.Some? {
      ApplyConcat(sd + ue, ud, next.value);
      ApplyConcat(ue + sd, ud, next.value);
      MoveAll(sd, ue, next.value);
    }
  }

  // ---------------------------------------------------------------------------------------------
  // The two ways to instantiate.
  // ---------------------------------------------------------------------------------------------

  datatype Store = Store(funcs: seq<FuncInst>, mut: Mutable)

  function BaseOf(s: Store): Base {
    Base(|s.funcs|, |s.mut.tables|, |s.mut.mems|, |s.mut.globals|, |s.mut.elems|, |s.mut.datas|)
  }

  function NewTables(plans: seq<TablePlan>, globals: seq<Wasm.Value>): seq<seq<Wasm.Value>> {
    seq(|plans|, i requires 0 <= i < |plans| => seq(plans[i].minimum, _ => Eval(plans[i].fill, globals)))
  }

  function NewElems(plans: seq<seq<Const>>, globals: seq<Wasm.Value>): seq<seq<Wasm.Value>> {
    seq(|plans|, i requires 0 <= i < |plans| => seq(|plans[i]|, k requires 0 <= k < |plans[i]| => Eval(plans[i][k], globals)))
  }

  function NewMemories(memories: seq<Memory>): seq<bytes> {
    seq(|memories|, i requires 0 <= i < |memories| => Zeros(65536 * memories[i].minimum))
  }

  function NewDatas(ds: seq<Data>): seq<bytes> { seq(|ds|, i requires 0 <= i < |ds| => ds[i].content) }

  /** Allocation of everything but functions. */
  function Allocate(m: Mutable, globals: seq<Const>, tables: seq<TablePlan>, memories: seq<Memory>, elems: seq<seq<Const>>, datas: seq<Data>): Mutable {
    var gs := InitGlobals(globals, m.globals);
    Mutable(m.tables + NewTables(tables, gs), m.mems + NewMemories(memories), gs, m.elems + NewElems(elems, gs), m.datas + NewDatas(datas))
  }

  /** What a module or a pair of modules asks of the store. */
  datatype Plan = Plan(funcs: seq<FuncInst>, globals: seq<Const>, tables: seq<TablePlan>, memories: seq<Memory>, elems: seq<seq<Const>>, datas: seq<Data>)

  function Build(s: Store, p: Plan, inits: seq<Init>): Option<Store> {
    var m := ApplyAll(inits, Allocate(s.mut, p.globals, p.tables, p.memories, p.elems, p.datas));
    if m.None? then None else Some(Store.Store(s.funcs + p.funcs, m.value))
  }

  /** The shell, then the user module bound to it; pool 0 is created large enough for the user. */
  function Separate(s: Store, shell: Module, user: Module, x: Externs): Option<Store> {
    var b := BaseOf(s);
    var si, ui := ShellInst(shell, b), UserInst(shell, user, b, x);
    Build(s, SeparatePlan(shell, user, si, ui), SeparateInits(shell, user, b, si, ui))
  }

  function SeparateInits(shell: Module, user: Module, b: Base, si: Inst, ui: Inst): seq<Init> {
    ElemInits(shell.elements, b.elems, si) + DataInits(shell.data, b.datas, si)
    + ElemInits(user.elements, b.elems + |shell.elements|, ui) + DataInits(user.data, b.datas + |shell.data|, ui)
  }

  /** The pools, the first grown for the user, and the user's memories that are no pool. */
  function SeparateMemories(pools: seq<Memory>, user: Module): seq<Memory> {
    if pools == [] then user.memories
    else MergeMemories(pools, UserMinimum(user)) + if user.memories == [] then [] else user.memories[1..]
  }

  function SeparatePlan(shell: Module, user: Module, si: Inst, ui: Inst): Plan {
    Plan(FuncInsts(shell.types, shell.funcs, si) + FuncInsts(user.types, user.funcs, ui),
         GlobalInits(shell.globals, si) + GlobalInits(user.globals, ui),
         TablePlans(shell.tables, si) + TablePlans(user.tables, ui),
         SeparateMemories(shell.memories, user),
         ElemPlans(shell.elements, si) + ElemPlans(user.elements, ui), shell.data + user.data)
  }

  function PlanOf(md: Module, i: Inst): Plan {
    Plan(FuncInsts(md.types, md.funcs, i), GlobalInits(md.globals, i), TablePlans(md.tables, i), md.memories, ElemPlans(md.elements, i), md.data)
  }

  function Instantiate(s: Store, md: Module, x: Externs): Option<Store> {
    var b := BaseOf(s);
    var i := MergedInst(md, b, x);
    Build(s, PlanOf(md, i), ModuleInits(md, b, i))
  }

  function ModuleInits(md: Module, b: Base, i: Inst): seq<Init> {
    ElemInits(md.elements, b.elems, i) + DataInits(md.data, b.datas, i)
  }

  // ---------------------------------------------------------------------------------------------
  // Constant expressions.
  // ---------------------------------------------------------------------------------------------

  /** A constant expression copied without renumbering keeps its value. */
  predicate ConstKept(e: ConstExpr, l: Layout, side: Side) {
    match e
    case GlobalGetConst(g) => MapGlobal(l, side, g) == g
    case RefFuncConst(f) => MapFunc(l, side, f) == f
    case _ => true
  }

  /** In element items function references are renumbered and global references are not. */
  predicate ItemKept(e: ConstExpr, l: Layout, side: Side) { e.GlobalGetConst? ==> MapGlobal(l, side, e.g) == e.g }

  predicate ConstValid(e: ConstExpr, i: Inst) {
    match e
    case GlobalGetConst(g) => g < |i.globals|
    case RefFuncConst(f) => f < |i.funcs|
    case _ => true
  }

  /** What a side's index maps must do for its constants. */
  ghost predicate SideMapped(mi: Inst, own: Inst, l: Layout, side: Side) {
    && (forall f: nat :: f < |own.funcs| ==> Addr(mi.funcs, MapFunc(l, side, f)) == Addr(own.funcs, f))
    && (forall g: nat :: g < |own.globals| ==> Addr(mi.globals, MapGlobal(l, side, g)) == Addr(own.globals, g))
    && (forall t: nat :: t < |own.tables| ==> Addr(mi.tables, MapTable(l, side, t)) == Addr(own.tables, t))
    && (forall t: nat :: t < |own.types| ==> TypeAt(mi.types, MapType(l, side, t)) == TypeAt(own.types, t))
  }

  ghost predicate MemoriesMapped(mi: Inst, own: Inst) { forall m: nat :: m < |own.mems| ==> Addr(mi.mems, m) == Addr(own.mems, m) }

  lemma ConstMeans(e: ConstExpr, mi: Inst, own: Inst, l: Layout, side: Side)
    requires SideMapped(mi, own, l, side) && ConstValid(e, own) && ConstKept(e, l, side)
    ensures ResolveConst(e, mi) == ResolveConst(e, own)
  {
  }

  lemma ItemsMean(items: ElemItems, mi: Inst, own: Inst, l: Layout, side: Side)
    requires SideMapped(mi, own, l, side)
    requires items.Functions? ==> forall i :: 0 <= i < |items.funcs| ==> items.funcs[i] < |own.funcs|
    requires items.Expressions? ==> forall i :: 0 <= i < |items.exprs| ==> ConstValid(items.exprs[i], own) && ItemKept(items.exprs[i], l, side)
    ensures ItemConsts(RewriteItems(items, l, side), mi) == ItemConsts(items, own)
  {
  }

  // ---------------------------------------------------------------------------------------------
  // Sections of one side.
  // ---------------------------------------------------------------------------------------------

  predicate TableKept(t: Table, own: Inst, l: Layout, side: Side) {
    t.init.Some? ==> ConstValid(t.init.value, own) && ConstKept(t.init.value, l, side)
  }

  predicate GlobalKept(g: Global, own: Inst, l: Layout, side: Side) { ConstValid(g.init, own) && ConstKept(g.init, l, side) }

  predicate ElementKept(e: Element, own: Inst, l: Layout, side: Side) {
    && (e.items.Functions? ==> forall i :: 0 <= i < |e.items.funcs| ==> e.items.funcs[i] < |own.funcs|)
    && (e.items.Expressions? ==> forall i :: 0 <= i < |e.items.exprs| ==> ConstValid(e.items.exprs[i], own) && ItemKept(e.items.exprs[i], l, side))
    && (e.mode.ActiveElem? ==>
          && (if e.mode.table.Some? then e.mode.table.value else 0) < |own.tables|
          && ConstValid(e.mode.offset, own) && ConstKept(e.mode.offset, l, side))
  }

  predicate DataKept(d: Data, own: Inst, l: Layout, side: Side) {
    d.mode.ActiveData? ==> d.mode.mem < |own.mems| && ConstValid(d.mode.offset, own) && ConstKept(d.mode.offset, l, side)
  }

  /** A valid side whose constants survive being copied. */
  ghost predicate SectionsKept(m: Module, own: Inst, l: Layout, side: Side) {
    && (forall i :: 0 <= i < |m.tables| ==> TableKept(m.tables[i], own, l, side))
    && (forall i :: 0 <= i < |m.globals| ==> GlobalKept(m.globals[i], own, l, side))
    && (forall i :: 0 <= i < |m.elements| ==> ElementKept(m.elements[i], own, l, side))
    && (forall i :: 0 <= i < |m.data| ==> DataKept(m.data[i], own, l, side))
  }

  lemma TablesMean(m: Module, mi: Inst, own: Inst, l: Layout, side: Side)
    requires SideMapped(mi, own, l, side) && SectionsKept(m, own, l, side)
    ensures TablePlans(m.tables, mi) == TablePlans(m.tables, own)
  {
    forall i | 0 <= i < |m.tables| ensures PlanTable(m.tables[i], mi) == PlanTable(m.tables[i], own) {
      assert TableKept(m.tables[i], own, l, side);
      if m.tables[i].init.Some? { ConstMeans(m.tables[i].init.value, mi, own, l, side); }
    }
  }

  lemma GlobalsMean(m: Module, mi: Inst, own: Inst, l: Layout, side: Side)
    requires SideMapped(mi, own, l, side) && SectionsKept(m, own, l, side)
    ensures GlobalInits(m.globals, mi) == GlobalInits(m.globals, own)
  {
    forall i | 0 <= i < |m.globals| ensures ResolveConst(m.globals[i].init, mi) == ResolveConst(m.globals[i].init, own) {
      assert GlobalKept(m.globals[i], own, l, side);
      ConstMeans(m.globals[i].init, mi, own, l, side);
    }
  }

  lemma ElementMeans(e: Element, addr: nat, mi: Inst, own: Inst, l: Layout, side: Side)
    requires SideMapped(mi, own, l, side) && ElementKept(e, own, l, side)
    ensures ItemConsts(RewriteElement(e, l, side).items, mi) == ItemConsts(e.items, own)
    ensures ElemInit(RewriteElement(e, l, side), addr, mi) == ElemInit(e, addr, own)
  {
    ItemsMean(e.items, mi, own, l, side);
    if e.mode.ActiveElem? { ConstMeans(e.mode.offset, mi, own, l, side); }
  }

  lemma ElementsMean(m: Module, from: nat, mi: Inst, own: Inst, l: Layout, side: Side)
    requires SideMapped(mi, own, l, side) && SectionsKept(m, own, l, side)
    ensures ElemPlans(RewriteElements(m.elements, l, side), mi) == ElemPlans(m.elements, own)
    ensures ElemInits(RewriteElements(m.elements, l, side), from, mi) == ElemInits(m.elements, from, own)
  {
    var r := RewriteElements(m.elements, l, side);
    forall i | 0 <= i < |m.elements|
      ensures ItemConsts(r[i].items, mi) == ItemConsts(m.elements[i].items, own)
      ensures ElemInit(r[i], from + i, mi) == ElemInit(m.elements[i], from + i, own)
    {
      assert ElementKept(m.elements[i], own, l, side);
      ElementMeans(m.elements[i], from + i, mi, own, l, side);
    }
  }

  lemma DatasMean(m: Module, from: nat, mi: Inst, own: Inst, l: Layout, side: Side)
    requires SideMapped(mi, own, l, side) && MemoriesMapped(mi, own) && SectionsKept(m, own, l, side)
    ensures DataInits(m.data, from, mi) == DataInits(m.data, from, own)
  {
    forall i | 0 <= i < |m.data| ensures DataInit(m.data[i], from + i, mi) == DataInit(m.data[i], from + i, own) {
      assert DataKept(m.data[i], own, l, side);
      if m.data[i].mode.ActiveData? { ConstMeans(m.data[i].mode.offset, mi, own, l, side); }
    }
  }

  /** Sections of the merged module are the shell's followed by the user's. */
  lemma GlobalsSplit(a: seq<Global>, b: seq<Global>, i: Inst)
    ensures GlobalInits(a + b, i) == GlobalInits(a, i) + GlobalInits(b, i)
  {
  }

  lemma TablesSplit(a: seq<Table>, b: seq<Table>, i: Inst)
    ensures TablePlans(a + b, i) == TablePlans(a, i) + TablePlans(b, i)
  {
  }

  lemma ElementsSplit(a: seq<Element>, b: seq<Element>, from: nat, i: Inst)
    ensures ElemPlans(a + b, i) == ElemPlans(a, i) + ElemPlans(b, i)
    ensures ElemInits(a + b, from, i) == ElemInits(a, from, i) + ElemInits(b, from + |a|, i)
  {
  }

  lemma DatasSplit(a: seq<Data>, b: seq<Data>, from: nat, i: Inst)
    ensures DataInits(a + b, from, i) == DataInits(a, from, i) + DataInits(b, from + |a|, i)
  {
  }

  lemma FuncsSplit(types: seq<FuncType>, a: seq<Func>, b: seq<Func>, i: Inst)
    ensures FuncInsts(types, a + b, i) == FuncInsts(types, a, i) + FuncInsts(types, b, i)
  {
  }

  // ---------------------------------------------------------------------------------------------
  // Functions.
  // ---------------------------------------------------------------------------------------------

  /** A function whose type exists and whose operators all keep their meaning. */
  ghost predicate ShellFuncKept(f: Func, si: Inst, user: Module) {
    f.ty < |si.types| && forall pc :: 0 <= pc < |f.code| ==> OpValid(f.code[pc], si) && ShellOpKept(f.code[pc], user)
  }

  ghost predicate UserFuncKept(f: Func, shell: Module, user: Module) {
    f.ty < |user.types| && forall pc :: 0 <= pc < |f.code| ==> UserOpKept(f.code[pc], shell, user)
  }

  lemma ShellFuncMeans(shell: Module, user: Module, a: Aliases, b: Base, x: Externs, i: nat)
    requires ExternsOk(user, b, x) && i < |shell.funcs| && ShellFuncKept(shell.funcs[i], ShellInst(shell, b), user)
    ensures var mi := MergedInst(Merged(shell, user, a), b, x); var si := ShellInst(shell, b);
      var f := shell.funcs[i]; var l := LayoutOf(shell, user);
      && TypeOr(mi.types, RewriteFunc(f, l, Shell).ty) == TypeOr(si.types, f.ty)
      && SameCode(f.code, si, RewriteFunc(f, l, Shell).code, mi)
  {
    var mi, si, l, f := MergedInst(Merged(shell, user, a), b, x), ShellInst(shell, b), LayoutOf(shell, user), shell.funcs[i];
    forall pc | 0 <= pc < |f.code| ensures Resolve(RewriteBody(f.code, l, Shell)[pc], mi) == Resolve(f.code[pc], si) {
      assert OpValid(f.code[pc], si) && ShellOpKept(f.code[pc], user);
      ShellOpMeans(shell, user, a, b, x, f.code[pc]);
    }
  }

  lemma UserFuncMeans(shell: Module, user: Module, a: Aliases, b: Base, x: Externs, i: nat)
    requires Linkable(shell, user, a) && ExportsInRange(shell) && ExternsOk(user, b, x)
    requires i < |user.funcs| && UserFuncKept(user.funcs[i], shell, user)
    ensures var mi := MergedInst(Merged(shell, user, a), b, x); var ui := UserInst(shell, user, b, x);
      var f := user.funcs[i]; var l := LayoutOf(shell, user);
      && TypeOr(mi.types, RewriteFunc(f, l, User).ty) == TypeOr(ui.types, f.ty)
      && SameCode(f.code, ui, RewriteFunc(f, l, User).code, mi)
  {
    var mi, ui, l, f := MergedInst(Merged(shell, user, a), b, x), UserInst(shell, user, b, x), LayoutOf(shell, user), user.funcs[i];
    forall pc | 0 <= pc < |f.code| ensures Resolve(RewriteBody(f.code, l, User)[pc], mi) == Resolve(f.code[pc], ui) {
      assert UserOpKept(f.code[pc], shell, user);
      UserOpMeans(shell, user, a, b, x, f.code[pc]);
    }
  }

  // ---------------------------------------------------------------------------------------------
  // Main results.
  // ---------------------------------------------------------------------------------------------

  /** One user memory, or none, and a pool to put it in. */
  predicate MemoriesKept(shell: Module, user: Module) { |user.memories| <= 1 && (shell.memories == [] ==> user.memories == []) }

  /** Valid modules that avoid what the linker does not renumber. */
  ghost predicate Faithful(shell: Module, user: Module, b: Base, x: Externs) {
    var l := LayoutOf(shell, user);
    && ExportsInRange(shell) && MemoriesKept(shell, user)
    && (forall i :: 0 <= i < |shell.funcs| ==> ShellFuncKept(shell.funcs[i], ShellInst(shell, b), user))
    && (forall i :: 0 <= i < |user.funcs| ==> UserFuncKept(user.funcs[i], shell, user))
    && SectionsKept(shell, ShellInst(shell, b), l, Shell)
    && SectionsKept(user, UserInst(shell, user, b, x), l, User)
  }

  lemma SidesMapped(shell: Module, user: Module, a: Aliases, b: Base, x: Externs)
    requires Linkable(shell, user, a) && ExportsInRange(shell) && ExternsOk(user, b, x)
    ensures var mi := MergedInst(Merged(shell, user, a), b, x); var l := LayoutOf(shell, user);
      && SideMapped(mi, ShellInst(shell, b), l, Shell) && SideMapped(mi, UserInst(shell, user, b, x), l, User)
      && MemoriesMapped(mi, ShellInst(shell, b))
      && (MemoriesKept(shell, user) ==> MemoriesMapped(mi, UserInst(shell, user, b, x)))
  {
    UserIsMapped(shell, user, a, b, x);
    ShellIsMapped(shell, user, a, b, x);
    UserOtherAddrs(shell, user, a, b, x);
  }

  lemma SameFunctions(shell: Module, user: Module, a: Aliases, b: Base, x: Externs)
    requires Linkable(shell, user, a) && ExternsOk(user, b, x) && Faithful(shell, user, b, x)
    ensures var m := Merged(shell, user, a);
      SameFuncs(FuncInsts(shell.types, shell.funcs, ShellInst(shell, b)) + FuncInsts(user.types, user.funcs, UserInst(shell, user, b, x)),
                FuncInsts(m.types, m.funcs, MergedInst(m, b, x)))
  {
    var m, l := Merged(shell, user, a), LayoutOf(shell, user);
    var mi, si, ui := MergedInst(m, b, x), ShellInst(shell, b), UserInst(shell, user, b, x);
    var fs, fu := FuncInsts(shell.types, shell.funcs, si), FuncInsts(user.types, user.funcs, ui);
    var gs, gu := FuncInsts(m.types, RewriteFuncs(shell.funcs, l, Shell), mi), FuncInsts(m.types, RewriteFuncs(user.funcs, l, User), mi);
    FuncsSplit(m.types, RewriteFuncs(shell.funcs, l, Shell), RewriteFuncs(user.funcs, l, User), mi);
    forall i | 0 <= i < |fs| ensures SameFunc(fs[i], gs[i]) { ShellFuncMeans(shell, user, a, b, x, i); }
    forall i | 0 <= i < |fu| ensures SameFunc(fu[i], gu[i]) { UserFuncMeans(shell, user, a, b, x, i); }
    JoinSame(fs, gs, fu, gu);
  }

  lemma JoinSame(a: seq<FuncInst>, b: seq<FuncInst>, c: seq<FuncInst>, d: seq<FuncInst>)
    requires SameFuncs(a, b) && SameFuncs(c, d)
    ensures SameFuncs(a + c, b + d)
  {
  }

  lemma ReflexiveFuncs(a: seq<FuncInst>)
    ensures SameFuncs(a, a)
  {
  }

  /** What is allocated is the same. */
  lemma SameContents(shell: Module, user: Module, mi: Inst, si: Inst, ui: Inst, l: Layout)
    requires SideMapped(mi, si, l, Shell) && SideMapped(mi, ui, l, User)
    requires SectionsKept(shell, si, l, Shell) && SectionsKept(user, ui, l, User)
    ensures GlobalInits(shell.globals + user.globals, mi) == GlobalInits(shell.globals, si) + GlobalInits(user.globals, ui)
    ensures TablePlans(shell.tables + user.tables, mi) == TablePlans(shell.tables, si) + TablePlans(user.tables, ui)
  {
    GlobalsMean(shell, mi, si, l, Shell);
    GlobalsMean(user, mi, ui, l, User);
    GlobalsSplit(shell.globals, user.globals, mi);
    TablesMean(shell, mi, si, l, Shell);
    TablesMean(user, mi, ui, l, User);
    TablesSplit(shell.tables, user.tables, mi);
  }

  /** What is copied from segments is the same. */
  lemma SameElements(shell: Module, user: Module, mi: Inst, si: Inst, ui: Inst, l: Layout, from: nat)
    requires SideMapped(mi, si, l, Shell) && SideMapped(mi, ui, l, User)
    requires SectionsKept(shell, si, l, Shell) && SectionsKept(user, ui, l, User)
    ensures var es := RewriteElements(shell.elements, l, Shell) + RewriteElements(user.elements, l, User);
      && ElemPlans(es, mi) == ElemPlans(shell.elements, si) + ElemPlans(user.elements, ui)
      && ElemInits(es, from, mi) == ElemInits(shell.elements, from, si) + ElemInits(user.elements, from + |shell.elements|, ui)
  {
    var rs, ru := RewriteElements(shell.elements, l, Shell), RewriteElements(user.elements, l, User);
    ElementsMean(shell, from, mi, si, l, Shell);
    ElementsMean(user, from + |shell.elements|, mi, ui, l, User);
    JoinPlans(rs, ru, mi, ElemPlans(shell.elements, si), ElemPlans(user.elements, ui));
    JoinInits(rs, ru, from, mi, ElemInits(shell.elements, from, si), ElemInits(user.elements, from + |shell.elements|, ui));
  }

  lemma JoinPlans(a: seq<Element>, b: seq<Element>, i: Inst, p: seq<seq<Const>>, q: seq<seq<Const>>)
    requires ElemPlans(a, i) == p && ElemPlans(b, i) == q
    ensures ElemPlans(a + b, i) == p + q
  {
    ElementsSplit(a, b, 0, i);
  }

  lemma JoinInits(a: seq<Element>, b: seq<Element>, from: nat, i: Inst, p: seq<Init>, q: seq<Init>)
    requires ElemInits(a, from, i) == p && ElemInits(b, from + |a|, i) == q
    ensures ElemInits(a + b, from, i) == p + q
  {
    ElementsSplit(a, b, from, i);
  }

  lemma SameDatas(shell: Module, user: Module, mi: Inst, si: Inst, ui: Inst, l: Layout, from: nat)
    requires SideMapped(mi, si, l, Shell) && SideMapped(mi, ui, l, User) && MemoriesMapped(mi, si) && MemoriesMapped(mi, ui)
    requires SectionsKept(shell, si, l, Shell) && SectionsKept(user, ui, l, User)
    ensures DataInits(shell.data + user.data, from, mi) == DataInits(shell.data, from, si) + DataInits(user.data, from + |shell.data|, ui)
  {
    DatasMean(shell, from, mi, si, l, Shell);
    DatasMean(user, from + |shell.data|, mi, ui, l, User);
    DatasSplit(shell.data, user.data, from, mi);
  }

  /** Plans that differ only in functions that mean the same, and segments run in either order. */
  lemma BuildSame(s: Store, p: Plan, q: Plan, se: seq<Init>, sd: seq<Init>, ue: seq<Init>, ud: seq<Init>)
    requires SameFuncs(p.funcs, q.funcs) && p == q.(funcs := p.funcs)
    requires DatasOnly(sd) && ElemsOnly(ue)
    ensures var a := Build(s, p, se + sd + ue + ud); var b := Build(s, q, (se + ue) + (sd + ud));
      && (a.None? <==> b.None?)
      && (a.Some? ==> a.value.mut == b.value.mut && SameFuncs(a.value.funcs, b.value.funcs))
  {
    SegmentOrder(se, sd, ue, ud, Allocate(s.mut, p.globals, p.tables, p.memories, p.elems, p.datas));
    ReflexiveFuncs(s.funcs);
    JoinSame(s.funcs, s.funcs, p.funcs, q.funcs);
  }

  lemma InitKinds(es: seq<Element>, ds: seq<Data>, ef: nat, df: nat, i: Inst)
    ensures ElemsOnly(ElemInits(es, ef, i)) && DatasOnly(DataInits(ds, df, i))
  {
  }

  /** `m` has the linker's sections for this shell and user module. */
  predicate SectionsMerged(m: Module, shell: Module, user: Module, l: Layout) {
    && m.globals == shell.globals + user.globals && m.tables == shell.tables + user.tables && m.data == shell.data + user.data
    && m.elements == RewriteElements(shell.elements, l, Shell) + RewriteElements(user.elements, l, User)
    && m.memories == MergeMemories(shell.memories, UserMinimum(user))
  }

  lemma SamePlans(shell: Module, user: Module, m: Module, mi: Inst, si: Inst, ui: Inst, l: Layout)
    requires SideMapped(mi, si, l, Shell) && SideMapped(mi, ui, l, User) && SectionsMerged(m, shell, user, l) && MemoriesKept(shell, user)
    requires SectionsKept(shell, si, l, Shell) && SectionsKept(user, ui, l, User)
    ensures SeparatePlan(shell, user, si, ui) == PlanOf(m, mi).(funcs := SeparatePlan(shell, user, si, ui).funcs)
  {
    SameContents(shell, user, mi, si, ui, l);
    SameElements(shell, user, mi, si, ui, l, 0);
    if user.memories != [] { assert user.memories[1..] == []; }
  }

  /** The instances and sections of a faithful pair and of its merged module correspond. */
  ghost predicate Aligned(shell: Module, user: Module, m: Module, mi: Inst, si: Inst, ui: Inst, l: Layout) {
    && SideMapped(mi, si, l, Shell) && SideMapped(mi, ui, l, User) && SectionsMerged(m, shell, user, l)
    && MemoriesMapped(mi, si) && MemoriesMapped(mi, ui) && MemoriesKept(shell, user)
    && SectionsKept(shell, si, l, Shell) && SectionsKept(user, ui, l, User)
    && SameFuncs(SeparatePlan(shell, user, si, ui).funcs, PlanOf(m, mi).funcs)
  }

  /** Both trap, or both leave the same store up to functions that mean the same. */
  ghost predicate SameStore(p: Option<Store>, q: Option<Store>) {
    && (p.None? <==> q.None?)
    && (p.Some? ==> p.value.mut == q.value.mut && SameFuncs(p.value.funcs, q.value.funcs))
  }

  lemma SameInits(shell: Module, user: Module, m: Module, mi: Inst, si: Inst, ui: Inst, l: Layout, b: Base)
    requires Aligned(shell, user, m, mi, si, ui, l)
    ensures ModuleInits(m, b, mi) ==
      (ElemInits(shell.elements, b.elems, si) + ElemInits(user.elements, b.elems + |shell.elements|, ui))
      + (DataInits(shell.data, b.datas, si) + DataInits(user.data, b.datas + |shell.data|, ui))
  {
    SameElements(shell, user, mi, si, ui, l, b.elems);
    SameDatas(shell, user, mi, si, ui, l, b.datas);
  }

  lemma StoresAgree(s: Store, shell: Module, user: Module, m: Module, mi: Inst, si: Inst, ui: Inst, l: Layout, b: Base)
    requires Aligned(shell, user, m, mi, si, ui, l)
    ensures SameStore(Build(s, SeparatePlan(shell, user, si, ui), SeparateInits(shell, user, b, si, ui)), Build(s, PlanOf(m, mi), ModuleInits(m, b, mi)))
  {
    SamePlans(shell, user, m, mi, si, ui, l);
    SameInits(shell, user, m, mi, si, ui, l, b);
    InitKinds(shell.elements, shell.data, b.elems, b.datas, si);
    InitKinds(user.elements, user.data, b.elems + |shell.elements|, b.datas, ui);
    BuildSame(s, SeparatePlan(shell, user, si, ui), PlanOf(m, mi), ElemInits(shell.elements, b.elems, si), DataInits(shell.data, b.datas, si),
              ElemInits(user.elements, b.elems + |shell.elements|, ui), DataInits(user.data, b.datas + |shell.data|, ui));
  }

  lemma MergedSections(shell: Module, user: Module, a: Aliases)
    ensures SectionsMerged(Merged(shell, user, a), shell, user, LayoutOf(shell, user))
  {
  }

  lemma FaithfulIsAligned(shell: Module, user: Module, a: Aliases, b: Base, x: Externs)
    requires Linkable(shell, user, a) && ExternsOk(user, b, x) && Faithful(shell, user, b, x)
    ensures var m := Merged(shell, user, a);
      Aligned(shell, user, m, MergedInst(m, b, x), ShellInst(shell, b), UserInst(shell, user, b, x), LayoutOf(shell, user))
  {
    SidesMapped(shell, user, a, b, x);
    MergedSections(shell, user, a);
    SameFunctions(shell, user, a, b, x);
  }

  /** Both ways to instantiate trap alike, and otherwise leave the same store: the same tables,
      memories, globals and segments, and functions that mean the same. */
  lemma SameStores(s: Store, shell: Module, user: Module, a: Aliases, x: Externs)
    requires var b := BaseOf(s); Linkable(shell, user, a) && ExternsOk(user, b, x) && Faithful(shell, user, b, x)
    ensures var p := Separate(s, shell, user, x); var q := Instantiate(s, Merged(shell, user, a), x);
      && (p.None? <==> q.None?)
      && (p.Some? ==> p.value.mut == q.value.mut && SameFuncs(p.value.funcs, q.value.funcs))
  {
    var b, m := BaseOf(s), Merged(shell, user, a);
    FaithfulIsAligned(shell, user, a, b, x);
    StoresAgree(s, shell, user, m, MergedInst(m, b, x), ShellInst(shell, b), UserInst(shell, user, b, x), LayoutOf(shell, user), b);
  }

  /** Every function index of the user names a function of the store. */
  lemma UserFuncExists(shell: Module, user: Module, b: Base, x: Externs, f: nat)
    requires ImportsOk(user.imports, ExportedFuncs(shell.exports)) && ExportsInRange(shell) && ExternsOk(user, b, x)
    ensures var here := Addr(UserInst(shell, user, b, x).funcs, f);
      && (here.Some? <==> f < |LayoutOf(shell, user).targets| + |user.funcs|)
      && (here.Some? ==> here.value < b.funcs + |shell.funcs| + |user.funcs|)
  {
    var fs, ts := ExportedFuncs(shell.exports), LayoutOf(shell, user).targets;
    RewiredInRange(user.imports, fs, |shell.funcs|);
    ForwardedBound(user.imports, fs);
    assert ts == Targets(user.imports, fs);
    var si := ShellInst(shell, b).funcs;
    if f < |ts| {
      BindAddr(ts, si, x.funcs, Range(b.funcs + |shell.funcs|, |user.funcs|), f);
    } else {
      SpaceAddr(BindAll(ts, si, x.funcs), b.funcs + |shell.funcs|, |user.funcs|, f);
    }
  }

  /** Running a user function in the merged module is running it in the user module bound to the
      shell, for every instruction semantics, every host, all arguments and any number of steps. */
  lemma LinkingPreservesMeaning(sem: Semantics, s: Store, shell: Module, user: Module, a: Aliases, x: Externs, f: nat, args: seq<Wasm.Value>, steps: nat)
    requires var b := BaseOf(s); Linkable(shell, user, a) && ExternsOk(user, b, x) && Faithful(shell, user, b, x)
    requires Separate(s, shell, user, x).Some?
    ensures var p := Separate(s, shell, user, x).value; var q := Instantiate(s, Merged(shell, user, a), x);
      var here := Addr(UserInst(shell, user, BaseOf(s), x).funcs, f);
      var there := Addr(MergedInst(Merged(shell, user, a), BaseOf(s), x).funcs, MapFunc(LayoutOf(shell, user), User, f));
      && q.Some? && here == there
      && (here.Some? ==>
          && here.value < |p.funcs| == |q.value.funcs|
          && SameConfig(Run(sem, p.funcs, Start(sem, p.funcs, p.mut, here.value, args), steps),
                        Run(sem, q.value.funcs, Start(sem, q.value.funcs, q.value.mut, here.value, args), steps)))
  {
    SameStores(s, shell, user, a, x);
    UserFuncAddr(shell, user, a, BaseOf(s), x, f);
    var p, q := Separate(s, shell, user, x).value, Instantiate(s, Merged(shell, user, a), x).value;
    var here := Addr(UserInst(shell, user, BaseOf(s), x).funcs, f);
    UserFuncExists(shell, user, BaseOf(s), x, f);
    if here.Some? { RunSame(sem, p.funcs, q.funcs, p.mut, here.value, args, steps); }
  }
}
