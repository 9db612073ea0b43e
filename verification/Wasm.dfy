/**
 * Core WebAssembly modules with the index spaces of section 2.5.1 of the WebAssembly Core
 * Specification, and a machine that resolves every index through the module instance of the
 * running frame. What numeric, memory, table and global instructions do to values is a parameter.
 */
module Wasm {
  import opened Core

  datatype FuncType = FuncType(params: seq<nat>, results: seq<nat>)

  datatype BlockType = Empty | Single(valueType: nat) | Indexed(ty: nat)

  /** An index inside an operator that is not decoded. */
  datatype Index = TypeIndex(i: nat) | MemIndex(i: nat) | DataIndex(i: nat) | ElemIndex(i: nat) | GlobalIndex(i: nat) | TableIndex(i: nat)

  /** The operators that carry an index, and the rest. `Load` and `Store` stand for every width of the
      numeric types; `Plain` for constants, locals, arithmetic, branches and `end`; `CallRef` for
      `call_ref` and `return_call_ref`; `Raw` for every other operator, with the indices it carries:
      a memory for the vector and atomic accesses, a type for `ref.null` and `try_table`, and so on. */
  datatype Op =
    | Call(f: nat)
    | ReturnCall(f: nat)
    | CallIndirect(ty: nat, table: nat)
    | ReturnCallIndirect(ty: nat, table: nat)
    | RefFunc(f: nat)
    | GlobalGet(g: nat)
    | GlobalSet(g: nat)
    | TableGet(table: nat)
    | TableSet(table: nat)
    | TableSize(table: nat)
    | TableGrow(table: nat)
    | TableFill(table: nat)
    | TableCopy(dstTable: nat, srcTable: nat)
    | TableInit(elem: nat, table: nat)
    | ElemDrop(elem: nat)
    | MemoryInit(mem: nat, segment: nat)
    | DataDrop(segment: nat)
    | MemoryCopy(dstMem: nat, srcMem: nat)
    | MemoryFill(mem: nat)
    | MemorySize(mem: nat)
    | MemoryGrow(mem: nat)
    | Load(kind: nat, offset: nat, align: nat, mem: nat)
    | Store(kind: nat, offset: nat, align: nat, mem: nat)
    | Block(opener: nat, bt: BlockType)
    | Plain(tag: nat)
    | CallRef(ty: nat, tail: bool)
    | Raw(tag: nat, indices: seq<Index>)

  datatype ConstExpr = Num(v: int) | RefNull | GlobalGetConst(g: nat) | RefFuncConst(f: nat) | OtherConst

  // ---------------------------------------------------------------------------------------------
  // Instances.
  // ---------------------------------------------------------------------------------------------

  /** Index to store address, one list per index space. */
  datatype Inst = Inst(types: seq<FuncType>, funcs: seq<nat>, tables: seq<nat>, mems: seq<nat>, globals: seq<nat>, elems: seq<nat>, datas: seq<nat>)

  function Addr(space: seq<nat>, i: nat): Option<nat> { if i < |space| then Some(space[i]) else None }

  function TypeAt(types: seq<FuncType>, i: nat): Option<FuncType> { if i < |types| then Some(types[i]) else None }

  /** The values of a block: none, one result, or a function type. */
  datatype Signature = NoValues | OneResult(valueType: nat) | Of(ty: Option<FuncType>)

  function SignatureOf(bt: BlockType, inst: Inst): Signature {
    match bt
    case Empty => NoValues
    case Single(v) => OneResult(v)
    case Indexed(i) => Of(TypeAt(inst.types, i))
  }

  /** What an index stands for. */
  datatype Operand = TypeOperand(ty: Option<FuncType>) | AddrOperand(addr: Option<nat>)

  function ResolveIndex(ix: Index, inst: Inst): Operand {
    match ix
    case TypeIndex(i) => TypeOperand(TypeAt(inst.types, i))
    case MemIndex(i) => AddrOperand(Addr(inst.mems, i))
    case DataIndex(i) => AddrOperand(Addr(inst.datas, i))
    case ElemIndex(i) => AddrOperand(Addr(inst.elems, i))
    case GlobalIndex(i) => AddrOperand(Addr(inst.globals, i))
    case TableIndex(i) => AddrOperand(Addr(inst.tables, i))
  }

  function ResolveIndices(indices: seq<Index>, inst: Inst): (r: seq<Operand>)
    ensures |r| == |indices| && forall k :: 0 <= k < |indices| ==> r[k] == ResolveIndex(indices[k], inst)
  {
    seq(|indices|, k requires 0 <= k < |indices| => ResolveIndex(indices[k], inst))
  }

  /** An operator with its indices resolved to store addresses. */
  datatype Action =
    | DoCall(func: Option<nat>, tail: bool)
    | DoCallIndirect(ty: Option<FuncType>, table: Option<nat>, tail: bool)
    | DoRefFunc(func: Option<nat>)
    | DoGlobal(isSet: bool, global: Option<nat>)
    | DoTable(what: nat, table: Option<nat>)
    | DoTableCopy(dst: Option<nat>, src: Option<nat>)
    | DoTableInit(elem: Option<nat>, table: Option<nat>)
    | DoElemDrop(elem: Option<nat>)
    | DoMemoryInit(mem: Option<nat>, segment: Option<nat>)
    | DoDataDrop(segment: Option<nat>)
    | DoMemoryCopy(dst: Option<nat>, src: Option<nat>)
    | DoMemory(what: nat, mem: Option<nat>)
    | DoAccess(isStore: bool, kind: nat, offset: nat, align: nat, mem: Option<nat>)
    | DoBlock(opener: nat, signature: Signature)
    | DoPlain(tag: nat)
    | DoCallRef(ty: Option<FuncType>, tail: bool)
    | DoRaw(tag: nat, operands: seq<Operand>)

  function Resolve(op: Op, inst: Inst): Action {
    match op
    case Call(f) => DoCall(Addr(inst.funcs, f), false)
    case ReturnCall(f) => DoCall(Addr(inst.funcs, f), true)
    case CallIndirect(ty, table) => DoCallIndirect(TypeAt(inst.types, ty), Addr(inst.tables, table), false)
    case ReturnCallIndirect(ty, table) => DoCallIndirect(TypeAt(inst.types, ty), Addr(inst.tables, table), true)
    case RefFunc(f) => DoRefFunc(Addr(inst.funcs, f))
    case GlobalGet(g) => DoGlobal(false, Addr(inst.globals, g))
    case GlobalSet(g) => DoGlobal(true, Addr(inst.globals, g))
    case TableGet(t) => DoTable(0, Addr(inst.tables, t))
    case TableSet(t) => DoTable(1, Addr(inst.tables, t))
    case TableSize(t) => DoTable(2, Addr(inst.tables, t))
    case TableGrow(t) => DoTable(3, Addr(inst.tables, t))
    case TableFill(t) => DoTable(4, Addr(inst.tables, t))
    case TableCopy(d, s) => DoTableCopy(Addr(inst.tables, d), Addr(inst.tables, s))
    case TableInit(e, t) => DoTableInit(Addr(inst.elems, e), Addr(inst.tables, t))
    case ElemDrop(e) => DoElemDrop(Addr(inst.elems, e))
    case MemoryInit(m, d) => DoMemoryInit(Addr(inst.mems, m), Addr(inst.datas, d))
    case DataDrop(d) => DoDataDrop(Addr(inst.datas, d))
    case MemoryCopy(d, s) => DoMemoryCopy(Addr(inst.mems, d), Addr(inst.mems, s))
    case MemoryFill(m) => DoMemory(0, Addr(inst.mems, m))
    case MemorySize(m) => DoMemory(1, Addr(inst.mems, m))
    case MemoryGrow(m) => DoMemory(2, Addr(inst.mems, m))
    case Load(kind, offset, align, m) => DoAccess(false, kind, offset, align, Addr(inst.mems, m))
    case Store(kind, offset, align, m) => DoAccess(true, kind, offset, align, Addr(inst.mems, m))
    case Block(opener, bt) => DoBlock(opener, SignatureOf(bt, inst))
    case Plain(tag) => DoPlain(tag)
    case CallRef(ty, tail) => DoCallRef(TypeAt(inst.types, ty), tail)
    case Raw(tag, indices) => DoRaw(tag, ResolveIndices(indices, inst))
  }

  // ---------------------------------------------------------------------------------------------
  // The machine.
  // ---------------------------------------------------------------------------------------------

  datatype Value = Number(n: int) | Reference(func: Option<nat>)

  datatype FuncInst =
    | HostFunc(id: nat, ty: FuncType)
    | WasmFunc(ty: FuncType, inst: Inst, locals: nat, code: seq<Op>)

  /** The part of the store that running code can change. */
  datatype Mutable = Mutable(tables: seq<seq<Value>>, mems: seq<bytes>, globals: seq<Value>, elems: seq<seq<Value>>, datas: seq<bytes>)

  /** A frame's own state; `labels` is whatever branches need to remember. */
  datatype Local = Local(pc: nat, locals: seq<Value>, stack: seq<Value>, labels: seq<nat>)

  datatype Frame = Frame(inst: Inst, code: seq<Op>, local: Local)

  datatype Status = Running | Trapped

  datatype Config = Config(mut: Mutable, frames: seq<Frame>, results: seq<Value>, status: Status)

  /** What the machine is parametric in: the effect of every action that is not a call, and the
      host's functions. `None` is a trap. */
  datatype Semantics = Semantics(
    leaf: (Action, Local, Mutable) -> Option<(Local, Mutable)>,
    host: (nat, seq<Value>, Mutable) -> Option<(seq<Value>, Mutable)>)

  function Trap(c: Config): Config { c.(status := Trapped) }

  function Top(c: Config): Frame
    requires c.frames != []
  {
    c.frames[|c.frames| - 1]
  }

  function WithTop(c: Config, f: Frame): Config
    requires c.frames != []
  {
    c.(frames := c.frames[..|c.frames| - 1] + [f])
  }

  /** Calls the function at `addr` with `args`; `caller` is what stays of the caller's frame. */
  function Invoke(sem: Semantics, funcs: seq<FuncInst>, c: Config, callers: seq<Frame>, addr: nat, args: seq<Value>): Config
    requires addr < |funcs|
  {
    match funcs[addr]
    case HostFunc(id, _) =>
      (match sem.host(id, args, c.mut)
       case None => Trap(c)
       case Some((results, m)) => Deliver(c.(mut := m), callers, results))
    case WasmFunc(_, inst, locals, code) =>
      c.(frames := callers + [Frame(inst, code, Local(0, args + seq(locals, _ => Number(0)), [], []))])
  }

  /** Hands results to the innermost caller, or out of the machine. */
  function Deliver(c: Config, callers: seq<Frame>, results: seq<Value>): Config {
    if callers == [] then c.(frames := [], results := results)
    else
      var f := callers[|callers| - 1];
      c.(frames := callers[..|callers| - 1] + [f.(local := f.local.(stack := f.local.stack + results))])
  }

  /** Pops the arguments of a call of type `ty` and performs it. */
  function CallAddr(sem: Semantics, funcs: seq<FuncInst>, c: Config, local: Local, addr: nat, tail: bool): Config
    requires c.frames != []
  {
    if addr >= |funcs| then Trap(c)
    else
      var n := |funcs[addr].ty.params|;
      if n > |local.stack| then Trap(c)
      else
        var args := local.stack[|local.stack| - n..];
        var rest := local.(stack := local.stack[..|local.stack| - n], pc := local.pc + 1);
        var callers := if tail then c.frames[..|c.frames| - 1] else c.frames[..|c.frames| - 1] + [Top(c).(local := rest)];
        Invoke(sem, funcs, c, callers, addr, args)
  }

  /** The function a table slot refers to. */
  function Slot(m: Mutable, table: Option<nat>, index: Value): Option<nat> {
    if table.None? || table.value >= |m.tables| || !index.Number? then None
    else if 0 <= index.n < |m.tables[table.value]| && m.tables[table.value][index.n].Reference? then m.tables[table.value][index.n].func
    else None
  }

  function Callee(v: Value): Option<nat> { if v.Reference? then v.func else None }

  /** A call through a table or a reference needs a function of the type the operator names; validation
      already sees to that for a reference. */
  function Perform(sem: Semantics, funcs: seq<FuncInst>, c: Config, action: Action): Config
    requires c.frames != []
  {
    var local := Top(c).local;
    match action
    case DoCall(func, tail) => if func.None? then Trap(c) else CallAddr(sem, funcs, c, local, func.value, tail)
    case DoCallIndirect(ty, table, tail) =>
      if local.stack == [] then Trap(c)
      else
        var func := Slot(c.mut, table, local.stack[|local.stack| - 1]);
        if func.None? || func.value >= |funcs| || ty != Some(funcs[func.value].ty) then Trap(c)
        else CallAddr(sem, funcs, c, local.(stack := local.stack[..|local.stack| - 1]), func.value, tail)
    case DoCallRef(ty, tail) =>
      if local.stack == [] then Trap(c)
      else
        var func := Callee(local.stack[|local.stack| - 1]);
        if func.None? || func.value >= |funcs| || ty != Some(funcs[func.value].ty) then Trap(c)
        else CallAddr(sem, funcs, c, local.(stack := local.stack[..|local.stack| - 1]), func.value, tail)
    case _ =>
      (match sem.leaf(action, local, c.mut)
       case None => Trap(c)
       case Some((l, m)) => WithTop(c, Top(c).(local := l)).(mut := m))
  }

  function Step(sem: Semantics, funcs: seq<FuncInst>, c: Config): Config {
    if c.frames == [] || c.status == Trapped then c
    else
      var f := Top(c);
      if f.local.pc >= |f.code| then Deliver(c, c.frames[..|c.frames| - 1], f.local.stack)
      else Perform(sem, funcs, c, Resolve(f.code[f.local.pc], f.inst))
  }

  function Run(sem: Semantics, funcs: seq<FuncInst>, c: Config, steps: nat): Config {
    if steps == 0 then c else Step(sem, funcs, Run(sem, funcs, c, steps - 1))
  }

  function Start(sem: Semantics, funcs: seq<FuncInst>, m: Mutable, addr: nat, args: seq<Value>): Config
    requires addr < |funcs|
  {
    Invoke(sem, funcs, Config(m, [], [], Running), [], addr, args)
  }

  // ---------------------------------------------------------------------------------------------
  // Simulation.
  // ---------------------------------------------------------------------------------------------

  /** Two bodies under two instances that resolve to the same actions, position by position. */
  ghost predicate SameCode(a: seq<Op>, ai: Inst, b: seq<Op>, bi: Inst) {
    |a| == |b| && forall pc :: 0 <= pc < |a| ==> Resolve(a[pc], ai) == Resolve(b[pc], bi)
  }

  ghost predicate SameFunc(a: FuncInst, b: FuncInst) {
    match (a, b)
    case (HostFunc(_, _), HostFunc(_, _)) => a == b
    case (WasmFunc(t, i, n, c), WasmFunc(u, j, m, d)) => t == u && n == m && SameCode(c, i, d, j)
    case _ => false
  }

  ghost predicate SameFuncs(a: seq<FuncInst>, b: seq<FuncInst>) {
    |a| == |b| && forall i :: 0 <= i < |a| ==> SameFunc(a[i], b[i])
  }

  ghost predicate SameFrame(a: Frame, b: Frame) { a.local == b.local && SameCode(a.code, a.inst, b.code, b.inst) }

  ghost predicate SameFrames(a: seq<Frame>, b: seq<Frame>) {
    |a| == |b| && forall i :: 0 <= i < |a| ==> SameFrame(a[i], b[i])
  }

  /** Same store, same results, same status, and frames that mean the same. */
  ghost predicate SameConfig(a: Config, b: Config) {
    a.mut == b.mut && a.results == b.results && a.status == b.status && SameFrames(a.frames, b.frames)
  }

  lemma PushSame(a: seq<Frame>, b: seq<Frame>, f: Frame, g: Frame)
    requires SameFrames(a, b) && SameFrame(f, g)
    ensures SameFrames(a + [f], b + [g])
  {
  }

  lemma PopSame(a: seq<Frame>, b: seq<Frame>)
    requires SameFrames(a, b) && a != []
    ensures SameFrames(a[..|a| - 1], b[..|b| - 1]) && SameFrame(a[|a| - 1], b[|b| - 1])
  {
  }

  lemma DeliverSame(a: Config, b: Config, callersA: seq<Frame>, callersB: seq<Frame>, results: seq<Value>)
    requires SameConfig(a, b) && SameFrames(callersA, callersB)
    ensures SameConfig(Deliver(a, callersA, results), Deliver(b, callersB, results))
  {
    if callersA != [] {
      PopSame(callersA, callersB);
      var f, g := callersA[|callersA| - 1], callersB[|callersB| - 1];
      PushSame(callersA[..|callersA| - 1], callersB[..|callersB| - 1],
               f.(local := f.local.(stack := f.local.stack + results)), g.(local := g.local.(stack := g.local.stack + results)));
    }
  }

  lemma InvokeSame(sem: Semantics, fa: seq<FuncInst>, fb: seq<FuncInst>, a: Config, b: Config, callersA: seq<Frame>, callersB: seq<Frame>, addr: nat, args: seq<Value>)
    requires SameFuncs(fa, fb) && addr < |fa| && SameConfig(a, b) && SameFrames(callersA, callersB)
    ensures SameConfig(Invoke(sem, fa, a, callersA, addr, args), Invoke(sem, fb, b, callersB, addr, args))
  {
    assert SameFunc(fa[addr], fb[addr]);
    match fa[addr]
    case HostFunc(id, _) =>
      var r := sem.host(id, args, a.mut);
      if r.Some? { DeliverSame(a.(mut := r.value.1), b.(mut := r.value.1), callersA, callersB, r.value.0); }
    case WasmFunc(_, i, n, c) =>
      var local := Local(0, args + seq(n, _ => Number(0)), [], []);
      PushSame(callersA, callersB, Frame(i, c, local), Frame(fb[addr].inst, fb[addr].code, local));
  }

  lemma CallSame(sem: Semantics, fa: seq<FuncInst>, fb: seq<FuncInst>, a: Config, b: Config, local: Local, addr: nat, tail: bool)
    requires SameFuncs(fa, fb) && SameConfig(a, b) && a.frames != []
    ensures SameConfig(CallAddr(sem, fa, a, local, addr, tail), CallAddr(sem, fb, b, local, addr, tail))
  {
    if addr < |fa| {
      assert SameFunc(fa[addr], fb[addr]);
      var n := |fa[addr].ty.params|;
      if n <= |local.stack| {
        var args := local.stack[|local.stack| - n..];
        var rest := local.(stack := local.stack[..|local.stack| - n], pc := local.pc + 1);
        PopSame(a.frames, b.frames);
        var outerA, outerB := a.frames[..|a.frames| - 1], b.frames[..|b.frames| - 1];
        PushSame(outerA, outerB, Top(a).(local := rest), Top(b).(local := rest));
        InvokeSame(sem, fa, fb, a, b,
                   if tail then outerA else outerA + [Top(a).(local := rest)],
                   if tail then outerB else outerB + [Top(b).(local := rest)], addr, args);
      }
    }
  }

  lemma PerformSame(sem: Semantics, fa: seq<FuncInst>, fb: seq<FuncInst>, a: Config, b: Config, action: Action)
    requires SameFuncs(fa, fb) && SameConfig(a, b) && a.frames != []
    ensures SameConfig(Perform(sem, fa, a, action), Perform(sem, fb, b, action))
  {
    PopSame(a.frames, b.frames);
    var local := Top(a).local;
    match action
    case DoCall(func, tail) => if func.Some? { CallSame(sem, fa, fb, a, b, local, func.value, tail); }
    case DoCallIndirect(ty, table, tail) => IndirectSame(sem, fa, fb, a, b, ty, table, tail);
    case DoCallRef(ty, tail) => CallRefSame(sem, fa, fb, a, b, ty, tail);
    case _ =>
      var r := sem.leaf(action, local, a.mut);
      if r.Some? { PushSame(a.frames[..|a.frames| - 1], b.frames[..|b.frames| - 1], Top(a).(local := r.value.0), Top(b).(local := r.value.0)); }
  }

  lemma IndirectSame(sem: Semantics, fa: seq<FuncInst>, fb: seq<FuncInst>, a: Config, b: Config, ty: Option<FuncType>, table: Option<nat>, tail: bool)
    requires SameFuncs(fa, fb) && SameConfig(a, b) && a.frames != []
    ensures SameConfig(Perform(sem, fa, a, DoCallIndirect(ty, table, tail)), Perform(sem, fb, b, DoCallIndirect(ty, table, tail)))
  {
    PopSame(a.frames, b.frames);
    var local := Top(a).local;
    if local.stack != [] {
      var func := Slot(a.mut, table, local.stack[|local.stack| - 1]);
      if func.Some? && func.value < |fa| {
        assert SameFunc(fa[func.value], fb[func.value]);
        CallSame(sem, fa, fb, a, b, local.(stack := local.stack[..|local.stack| - 1]), func.value, tail);
      }
    }
  }

  lemma CallRefSame(sem: Semantics, fa: seq<FuncInst>, fb: seq<FuncInst>, a: Config, b: Config, ty: Option<FuncType>, tail: bool)
    requires SameFuncs(fa, fb) && SameConfig(a, b) && a.frames != []
    ensures SameConfig(Perform(sem, fa, a, DoCallRef(ty, tail)), Perform(sem, fb, b, DoCallRef(ty, tail)))
  {
    PopSame(a.frames, b.frames);
    var local := Top(a).local;
    if local.stack != [] {
      var func := Callee(local.stack[|local.stack| - 1]);
      if func.Some? && func.value < |fa| {
        assert SameFunc(fa[func.value], fb[func.value]);
        CallSame(sem, fa, fb, a, b, local.(stack := local.stack[..|local.stack| - 1]), func.value, tail);
      }
    }
  }

  lemma StepSame(sem: Semantics, fa: seq<FuncInst>, fb: seq<FuncInst>, a: Config, b: Config)
    requires SameFuncs(fa, fb) && SameConfig(a, b)
    ensures SameConfig(Step(sem, fa, a), Step(sem, fb, b))
  {
    if a.frames != [] && a.status == Running {
      PopSame(a.frames, b.frames);
      var f, g := Top(a), Top(b);
      assert SameFrame(f, g);
      if f.local.pc >= |f.code| {
        DeliverSame(a, b, a.frames[..|a.frames| - 1], b.frames[..|b.frames| - 1], f.local.stack);
      } else {
        PerformSame(sem, fa, fb, a, b, Resolve(f.code[f.local.pc], f.inst));
      }
    }
  }

  /** Functions that mean the same run the same, step for step, for ever. */
  lemma {:induction false} RunSame(sem: Semantics, fa: seq<FuncInst>, fb: seq<FuncInst>, m: Mutable, addr: nat, args: seq<Value>, steps: nat)
    requires SameFuncs(fa, fb) && addr < |fa|
    ensures SameConfig(Run(sem, fa, Start(sem, fa, m, addr, args), steps), Run(sem, fb, Start(sem, fb, m, addr, args), steps))
  {
    if steps == 0 {
      var c := Config(m, [], [], Running);
      InvokeSame(sem, fa, fb, c, c, [], [], addr, args);
    } else {
      RunSame(sem, fa, fb, m, addr, args, steps - 1);
      StepSame(sem, fa, fb, Run(sem, fa, Start(sem, fa, m, addr, args), steps - 1), Run(sem, fb, Start(sem, fb, m, addr, args), steps - 1));
    }
  }
}
