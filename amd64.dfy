/** The AMD64 writer of amd64.cpp (`Amd64Writer`): it walks a module and
    appends GNU-assembler Intel-syntax text to one string. Allocas reserve
    stack bytes (`stackPos`) and record the slot of their name (`memMap`);
    loads and stores of immediates read those slots back. The writer's state
    is the text so far, the stack position and the two maps. */
module Amd64 {
  import W = Wrappers
  import opened Strings
  import opened Operands
  import opened Types
  import opened Instructions
  import opened Llir

  // ------------------------------------------------------------ types, sizes

  /** `getSizeForType`: the operand-size keyword of a data type. */
  function SizeForType(t: Type): (s: string)
    ensures s == "" <==> t.GetType() == Void || t.GetType() == Struct
  {
    match t.GetType()
    case I8 => "BYTE PTR"
    case I16 => "WORD PTR"
    case F32 => "DWORD PTR"
    case I32 => "DWORD PTR"
    case I64 => "QWORD PTR"
    case F64 => "QWORD PTR"
    case Ptr => "QWORD PTR"
    case _ => ""
  }

  /** The bytes an alloca of type `t` reserves (the `stackPos` increments). */
  function AllocaSize(t: Type): (n: nat)
    ensures n in {0, 1, 2, 4, 8}
  {
    match t.GetType()
    case I8 => 1
    case I16 => 2
    case F32 => 4
    case I32 => 4
    case I64 => 8
    case F64 => 8
    case Ptr => 8
    case _ => 0
  }

  /** The x86 keyword for an operand of `n` bytes. */
  function KeywordForBytes(n: nat): string {
    if n == 1 then "BYTE PTR"
    else if n == 2 then "WORD PTR"
    else if n == 4 then "DWORD PTR"
    else if n == 8 then "QWORD PTR"
    else ""
  }

  /** The size keyword of every type names exactly the number of bytes its
      alloca reserves: loads and stores move whole slots. */
  lemma SizeAgreesWithSlot(t: Type)
    ensures SizeForType(t) == KeywordForBytes(AllocaSize(t))
    ensures AllocaSize(t) == 0 <==> SizeForType(t) == ""
  {
  }

  // --------------------------------------------------------- writer state

  /** `stackPos`, `memMap` and `regMap`. */
  datatype WState = WState(stackPos: int, memMap: map<string, int>, regMap: map<string, string>)

  const Start := WState(0, map[], map[])

  /** The operand classes with a name: a `static_cast<Reg *>` of one of them
      reads that name. */
  predicate Named(o: Operand) {
    o.Reg? || o.Label? || o.StringPtr? || o.Mem?
  }

  /** `std::map::operator[]` read: a missing key reads as the default. */
  function Get<V>(m: map<string, V>, k: string, default: V): (v: V)
    ensures k in m ==> v == m[k]
    ensures k !in m ==> v == default
  {
    if k in m then m[k] else default
  }

  /** The map after that read: a missing key is inserted with the default. */
  function Touch<V>(m: map<string, V>, k: string, default: V): (r: map<string, V>)
    ensures k in r && r[k] == Get(m, k, default)
  {
    if k in m then m else m[k := default]
  }

  /** What `compileInstruction` dereferences: Ret's operand1; Alloca's dest;
      Load's dest and operand1; Store's operand1 and operand2, the ones cast
      to `Reg *` being named. */
  predicate WritableInstr(i: Instruction) {
    (i.op.Ret? ==> i.src1.Some?) &&
    (i.op.Alloca? ==> i.dest.Some? && Named(i.dest.value)) &&
    (i.op.Load? ==> i.dest.Some? && Named(i.dest.value) && i.src1.Some? && Named(i.src1.value)) &&
    (i.op.Store? ==> i.src1.Some? && i.src2.Some? && Named(i.src2.value))
  }

  /** `compileInstruction`: the new state and the text appended. */
  function InstrStep(s: WState, i: Instruction): (r: (WState, string))
    requires WritableInstr(i)
    ensures r.0.stackPos == s.stackPos + (if i.op == Alloca then AllocaSize(i.dataType) else 0)
    ensures r.1 != "" ==> i.op == None || i.op == Load || (i.op == Store && i.src1.value.Imm?)
    ensures i.op == Alloca ==> r.0.memMap == s.memMap[i.dest.value.name := r.0.stackPos]
    ensures i.op != Alloca && i.op != Load && i.op != Store ==> r.0.memMap == s.memMap
  {
    if i.op == None then (s, "nop\n")
    else if i.op == Ret then
      if i.src1.value.Reg? then (s.(regMap := Touch(s.regMap, i.src1.value.name, "")), "")
      else (s, "")
    else if i.op == Alloca then
      var p := s.stackPos + AllocaSize(i.dataType);
      (s.(stackPos := p, memMap := s.memMap[i.dest.value.name := p]), "")
    else if i.op == Load then
      var n := i.src1.value.name;
      var pos := Get(s.memMap, n, 0);
      (s.(regMap := s.regMap[i.dest.value.name := "eax"], memMap := Touch(s.memMap, n, 0)),
       "  mov eax, " + SizeForType(i.dataType) + " [rbp-" + IntToString(pos) + "]\n")
    else if i.op == Store then
      var n := i.src2.value.name;
      var pos := Get(s.memMap, n, 0);
      var s1 := s.(memMap := Touch(s.memMap, n, 0));
      if i.src1.value.Imm? then
        (s1, "  mov " + SizeForType(i.dataType) + " [rbp-" + IntToString(pos) + "]" +
             ", " + IntToString(i.src1.value.value as int) + "\n")
      else (s1, "")
    else (s, "")
  }

  // ------------------------------------------------------------- the text

  predicate AllWritable(ins: seq<Instruction>) {
    forall k :: 0 <= k < |ins| ==> WritableInstr(ins[k])
  }

  /** Bytes reserved by the allocas of `ins`. */
  function AllocaBytes(ins: seq<Instruction>): nat {
    if ins == [] then 0
    else AllocaBytes(ins[..|ins| - 1]) + (if ins[|ins| - 1].op == Alloca then AllocaSize(ins[|ins| - 1].dataType) else 0)
  }

  /** The instruction loop of one block. */
  function InstrsText(s: WState, ins: seq<Instruction>): (r: (WState, string))
    requires AllWritable(ins)
    ensures r.0.stackPos == s.stackPos + AllocaBytes(ins)
  {
    if ins == [] then (s, "")
    else
      var prev := InstrsText(s, ins[..|ins| - 1]);
      var step := InstrStep(prev.0, ins[|ins| - 1]);
      (step.0, prev.1 + step.1)
  }

  /** Writing one more instruction is one more step. */
  lemma InstrsTextSnoc(s: WState, ins: seq<Instruction>, k: nat)
    requires AllWritable(ins) && k < |ins|
    ensures AllWritable(ins[..k]) && AllWritable(ins[..k + 1])
    ensures var prev := InstrsText(s, ins[..k]); var step := InstrStep(prev.0, ins[k]);
      InstrsText(s, ins[..k + 1]) == (step.0, prev.1 + step.1)
  {
    assert ins[..k + 1][..k] == ins[..k];
  }

  lemma Assoc(a: string, b: string, c: string)
    ensures a + b + c == a + (b + c)
  {
  }

  predicate BlocksWritable(bs: seq<BlockView>) {
    forall k :: 0 <= k < |bs| ==> AllWritable(bs[k].instrs)
  }

  function BlocksAllocaBytes(bs: seq<BlockView>): nat {
    if bs == [] then 0 else BlocksAllocaBytes(bs[..|bs| - 1]) + AllocaBytes(bs[|bs| - 1].instrs)
  }

  /** The block loop: each block's label, then its instructions. */
  function BlocksText(s: WState, bs: seq<BlockView>): (r: (WState, string))
    requires BlocksWritable(bs)
    ensures r.0.stackPos == s.stackPos + BlocksAllocaBytes(bs)
  {
    if bs == [] then (s, "")
    else
      var prev := BlocksText(s, bs[..|bs| - 1]);
      var b := bs[|bs| - 1];
      var step := InstrsText(prev.0, b.instrs);
      (step.0, prev.1 + (b.name + ":\n") + step.1)
  }

  /** Writing one more block is one more step. */
  lemma BlocksTextSnoc(s: WState, bs: seq<BlockView>, k: nat)
    requires BlocksWritable(bs) && k < |bs|
    ensures BlocksWritable(bs[..k]) && BlocksWritable(bs[..k + 1])
    ensures var prev := BlocksText(s, bs[..k]); var step := InstrsText(prev.0, bs[k].instrs);
      BlocksText(s, bs[..k + 1]) == (step.0, prev.1 + (bs[k].name + ":\n") + step.1)
  {
    assert bs[..k + 1][..k] == bs[..k];
  }

  /** The linkage directives before a function's label. */
  function Directives(name: string, l: Linkage): string {
    match l
    case Global => (".globl " + name + "\n") + (".type " + name + ",@function\n")
    case Local => ""
    case Extern => ".extern " + name + "\n"
  }

  /** The label and the fixed frame set-up. */
  function Prologue(name: string, stackSize: nat): string {
    (name + ":\n") + "  push rbp\n" + "  mov rbp, rsp\n" + ("  sub rsp, " + NatToString(stackSize) + "\n")
  }

  const Epilogue := "  leave\n" + "  ret\n"

  /** Only a defined function's instructions are compiled. */
  predicate FunctionWritable(f: FunctionView) {
    f.linkage != Extern ==> BlocksWritable(f.blocks)
  }

  /** One iteration of `compile`'s function loop. */
  function FunctionText(s: WState, f: FunctionView): (r: (WState, string))
    requires FunctionWritable(f)
    ensures r.0.stackPos == s.stackPos + (if f.linkage == Extern then 0 else BlocksAllocaBytes(f.blocks))
  {
    if f.linkage == Extern then (s, "\n" + Directives(f.name, f.linkage))
    else
      var body := BlocksText(s, f.blocks);
      (body.0, "\n" + Directives(f.name, f.linkage) + Prologue(f.name, f.stackSize) + body.1 + Epilogue)
  }

  predicate FunctionsWritable(fs: seq<FunctionView>) {
    forall k :: 0 <= k < |fs| ==> FunctionWritable(fs[k])
  }

  /** Bytes reserved by the allocas of every defined function of `fs`. */
  function ModuleAllocaBytes(fs: seq<FunctionView>): nat {
    if fs == [] then 0
    else
      var f := fs[|fs| - 1];
      ModuleAllocaBytes(fs[..|fs| - 1]) + (if f.linkage == Extern then 0 else BlocksAllocaBytes(f.blocks))
  }

  /** `compile`'s function loop. */
  function FunctionsText(s: WState, fs: seq<FunctionView>): (r: (WState, string))
    requires FunctionsWritable(fs)
    ensures r.0.stackPos == s.stackPos + ModuleAllocaBytes(fs)
  {
    if fs == [] then (s, "")
    else
      var prev := FunctionsText(s, fs[..|fs| - 1]);
      var step := FunctionText(prev.0, fs[|fs| - 1]);
      (step.0, prev.1 + step.1)
  }

  /** Writing one more function is one more step. */
  lemma FunctionsTextSnoc(s: WState, fs: seq<FunctionView>, k: nat)
    requires FunctionsWritable(fs) && k < |fs|
    ensures FunctionsWritable(fs[..k]) && FunctionsWritable(fs[..k + 1])
    ensures var prev := FunctionsText(s, fs[..k]); var step := FunctionText(prev.0, fs[k]);
      FunctionsText(s, fs[..k + 1]) == (step.0, prev.1 + step.1)
  {
    assert fs[..k + 1][..k] == fs[..k];
  }

  // -------------------------------------------------------------- the class

  /** `Amd64Writer`. */
  class Writer {
    var mod: Module
    var assembly: string
    var stackPos: int
    var memMap: map<string, int>
    var regMap: map<string, string>

    function State(): WState
      reads this
    {
      WState(stackPos, memMap, regMap)
    }

    /** `Amd64Writer(mod)`: the text opens with the syntax directive. */
    constructor (mod: Module)
      ensures this.mod == mod && assembly == ".intel_syntax noprefix\n" && State() == Start
    {
      this.mod := mod;
      assembly := ".intel_syntax noprefix\n";
      stackPos := 0;
      memMap := map[];
      regMap := map[];
    }

    /** `compileInstruction`. */
    method CompileInstruction(i: Instruction)
      requires WritableInstr(i)
      modifies this
      ensures mod == old(mod)
      ensures var r := InstrStep(old(State()), i); State() == r.0 && assembly == old(assembly) + r.1
    {
      if i.op == None {
        assembly := assembly + "nop\n";
      } else if i.op == Ret {
        var src := i.src1.value;
        if src.Reg? {
          // the `eax`/`rax` test only reads the map, inserting the name
          regMap := Touch(regMap, src.name, "");
        }
      } else if i.op == Alloca {
        stackPos := stackPos + AllocaSize(i.dataType);
        memMap := memMap[i.dest.value.name := stackPos];
      } else if i.op == Load {
        regMap := regMap[i.dest.value.name := "eax"];
        var n := i.src1.value.name;
        var pos := Get(memMap, n, 0);
        memMap := Touch(memMap, n, 0);
        assembly := assembly + ("  mov eax, " + SizeForType(i.dataType) + " [rbp-" + IntToString(pos) + "]\n");
      } else if i.op == Store {
        var n := i.src2.value.name;
        var pos := Get(memMap, n, 0);
        memMap := Touch(memMap, n, 0);
        var src := i.src1.value;
        if src.Imm? {
          assembly := assembly + ("  mov " + SizeForType(i.dataType) + " [rbp-" + IntToString(pos) + "]" +
                                  ", " + IntToString(src.value as int) + "\n");
        }
      }
    }

    /** The instruction loop of `compile` for one block. */
    method CompileBlock(b: Block)
      requires AllWritable(b.instrs)
      modifies this
      ensures mod == old(mod)
      ensures var r := InstrsText(old(State()), b.instrs); State() == r.0 && assembly == old(assembly) + r.1
    {
      ghost var ins := b.instrs;
      ghost var s0 := State();
      ghost var a0 := assembly;
      var k := 0;
      while k < |b.instrs|
        invariant 0 <= k <= |ins| && mod == old(mod)
        invariant State() == InstrsText(s0, ins[..k]).0
        invariant assembly == a0 + InstrsText(s0, ins[..k]).1
      {
        ghost var prev := InstrsText(s0, ins[..k]);
        ghost var step := InstrStep(prev.0, ins[k]);
        InstrsTextSnoc(s0, ins, k);
        CompileInstruction(b.GetInstruction(k));
        Assoc(a0, prev.1, step.1);
        k := k + 1;
      }
      assert ins[..k] == ins;
    }

    /** `compile`'s block loop over one function: each label, then its instructions. */
    method CompileBlocks(bs: seq<Block>)
      requires BlocksWritable(BlockViews(bs))
      modifies this
      ensures mod == old(mod)
      ensures var r := BlocksText(old(State()), old(BlockViews(bs))); State() == r.0 && assembly == old(assembly) + r.1
    {
      ghost var s0 := State();
      ghost var a0 := assembly;
      ghost var views := BlockViews(bs);
      var j := 0;
      while j < |bs|
        invariant 0 <= j <= |bs| && mod == old(mod)
        invariant State() == BlocksText(s0, views[..j]).0
        invariant assembly == a0 + BlocksText(s0, views[..j]).1
      {
        ghost var prev := BlocksText(s0, views[..j]);
        ghost var lbl := views[j].name + ":\n";
        ghost var step := InstrsText(prev.0, views[j].instrs);
        BlocksTextSnoc(s0, views, j);
        var b := bs[j];
        assembly := assembly + (b.name + ":\n");
        CompileBlock(b);
        Assoc(a0, prev.1, lbl);
        Assoc(a0, prev.1 + lbl, step.1);
        j := j + 1;
      }
      assert views[..j] == views;
    }

    /** One iteration of `compile`'s function loop. */
    method CompileFunction(f: Function)
      requires FunctionWritable(f.View())
      modifies this
      ensures mod == old(mod)
      ensures var r := FunctionText(old(State()), old(f.View())); State() == r.0 && assembly == old(assembly) + r.1
    {
      ghost var s0 := State();
      ghost var a0 := assembly;
      ghost var fv := f.View();
      ghost var views := fv.blocks;
      ghost var d := Directives(f.name, f.linkage);
      assembly := assembly + "\n";
      match f.linkage {
        case Global =>
          assembly := assembly + (".globl " + f.name + "\n");
          assembly := assembly + (".type " + f.name + ",@function\n");
          Assoc(a0 + "\n", ".globl " + f.name + "\n", ".type " + f.name + ",@function\n");
        case Local =>
        case Extern =>
          assembly := assembly + (".extern " + f.name + "\n");
          Assoc(a0, "\n", d);
          assert FunctionText(s0, fv) == (s0, "\n" + d);
          return;
      }
      Assoc(a0, "\n", d);
      ghost var h := "\n" + d;
      assert assembly == a0 + h;
      ghost var x, y, z, w := f.name + ":\n", "  push rbp\n", "  mov rbp, rsp\n", "  sub rsp, " + NatToString(f.stackSize) + "\n";
      assembly := assembly + (f.name + ":\n");
      assembly := assembly + "  push rbp\n";
      assembly := assembly + "  mov rbp, rsp\n";
      assembly := assembly + ("  sub rsp, " + NatToString(f.stackSize) + "\n");
      Assoc(a0 + h, x, y);
      Assoc(a0 + h, x + y, z);
      Assoc(a0 + h, x + y + z, w);
      ghost var hp := h + Prologue(f.name, f.stackSize);
      Assoc(a0, h, Prologue(f.name, f.stackSize));
      assert assembly == a0 + hp;
      ghost var a2 := assembly;
      assert State() == s0;
      assert BlockViews(f.blocks) == views;
      CompileBlocks(f.blocks);
      ghost var body := BlocksText(s0, views).1;
      assert assembly == a2 + body;
      assembly := assembly + "  leave\n";
      assembly := assembly + "  ret\n";
      Assoc(a2 + body, "  leave\n", "  ret\n");
      assert assembly == a2 + body + Epilogue;
      Assoc(a0, hp, body);
      Assoc(a0, hp + body, Epilogue);
      assert assembly == a0 + (hp + body + Epilogue);
      assert FunctionText(s0, fv) == (State(), hp + body + Epilogue);
    }

    /** `compile`'s function loop over `fs`, whose views are `views`. */
    method CompileFunctions(fs: seq<Function>, ghost views: seq<FunctionView>)
      requires |views| == |fs| && FunctionsWritable(views)
      requires forall k :: 0 <= k < |fs| ==> fs[k].View() == views[k]
      modifies this
      ensures mod == old(mod)
      ensures var r := FunctionsText(old(State()), views); State() == r.0 && assembly == old(assembly) + r.1
    {
      ghost var s0 := State();
      ghost var a0 := assembly;
      var i := 0;
      while i < |fs|
        invariant 0 <= i <= |fs| && mod == old(mod)
        invariant State() == FunctionsText(s0, views[..i]).0
        invariant assembly == a0 + FunctionsText(s0, views[..i]).1
      {
        ghost var prev := FunctionsText(s0, views[..i]);
        ghost var step := FunctionText(prev.0, views[i]);
        FunctionsTextSnoc(s0, views, i);
        var f := fs[i];
        assert f.View() == views[i];
        CompileFunction(f);
        Assoc(a0, prev.1, step.1);
        i := i + 1;
      }
      assert views[..i] == views;
    }

    /** `compile`: the two section directives, then every function in order. */
    method Compile()
      requires FunctionsWritable(mod.Views())
      modifies this
      ensures mod == old(mod)
      ensures var r := FunctionsText(old(State()), old(mod.Views()));
        State() == r.0 && assembly == old(assembly) + ".data\n" + ".text\n" + r.1
    {
      ghost var views := mod.Views();
      assembly := assembly + ".data\n";
      assembly := assembly + ".text\n";
      CompileFunctions(mod.functions, views);
    }
  }
}
