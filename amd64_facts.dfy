/** Properties of the AMD64 writer's text functions: what each instruction
    emits, where alloca slots lie, how the text of a longer list is the text
    of its parts, and the shape of each function's text. */
module Amd64Facts {
  import W = Wrappers
  import opened Strings
  import opened Operands
  import opened Types
  import opened Instructions
  import opened Llir
  import opened Amd64

  // ------------------------------------------------------- one instruction

  /** `nop` is written for the None opcode and for nothing else. */
  lemma NopOnlyForNone(s: WState, i: Instruction)
    requires WritableInstr(i)
    ensures InstrStep(s, i).1 == "nop\n" <==> i.op == None
  {
    var t := InstrStep(s, i).1;
    if i.op == Load || i.op == Store {
      assert t != "" ==> t[0] == ' ';
    }
  }

  /** A load from a name that no alloca recorded reads offset 0, and the read
      inserts that name with 0. */
  lemma MissingSlotReadsZero(s: WState, l: Instruction)
    requires WritableInstr(l) && l.op == Load && l.src1.value.name !in s.memMap
    ensures var r := InstrStep(s, l);
      r.0.memMap == s.memMap[l.src1.value.name := 0] &&
      r.1 == "  mov eax, " + SizeForType(l.dataType) + " [rbp-0]\n"
  {
    assert IntToString(0) == "0";
  }

  /** A load of the name an alloca just declared reads the slot the alloca
      reserved: the old stack position plus the alloca's size. */
  lemma LoadReadsAllocaSlot(s: WState, a: Instruction, l: Instruction)
    requires WritableInstr(a) && WritableInstr(l) && a.op == Alloca && l.op == Load
    requires l.src1.value.name == a.dest.value.name
    ensures var s1 := InstrStep(s, a).0;
      InstrStep(s1, l).1 ==
        "  mov eax, " + SizeForType(l.dataType) + " [rbp-" + IntToString(s.stackPos + AllocaSize(a.dataType)) + "]\n"
  {
  }

  /** A store of an immediate into the name an alloca just declared writes
      that immediate to the slot the alloca reserved. */
  lemma StoreWritesAllocaSlot(s: WState, a: Instruction, st: Instruction)
    requires WritableInstr(a) && WritableInstr(st) && a.op == Alloca && st.op == Store
    requires st.src1.value.Imm? && st.src2.value.name == a.dest.value.name
    ensures var s1 := InstrStep(s, a).0; var r := InstrStep(s1, st);
      r.0 == s1 &&
      r.1 == "  mov " + SizeForType(st.dataType) + " [rbp-" + IntToString(s.stackPos + AllocaSize(a.dataType)) + "]" +
             ", " + IntToString(st.src1.value.value as int) + "\n"
  {
  }

  // ------------------------------------------------------------ alloca slots

  /** The slot the k-th instruction, an alloca, records is the stack position
      after every alloca up to and including it. */
  lemma {:induction false} AllocaRecordsSlot(s: WState, ins: seq<Instruction>, k: nat)
    requires AllWritable(ins) && k < |ins| && ins[k].op == Alloca
    ensures AllWritable(ins[..k + 1])
    ensures var t := InstrsText(s, ins[..k + 1]).0; var n := ins[k].dest.value.name;
      n in t.memMap && t.memMap[n] == t.stackPos == s.stackPos + AllocaBytes(ins[..k + 1])
  {
    InstrsTextSnoc(s, ins, k);
  }

  /** Allocated bytes never shrink along a list, and a sized alloca adds to them. */
  lemma {:induction false} AllocaBytesGrow(ins: seq<Instruction>, i: nat, j: nat)
    requires i <= j <= |ins|
    ensures AllocaBytes(ins[..i]) <= AllocaBytes(ins[..j])
    ensures i < j && ins[j - 1].op == Alloca && AllocaSize(ins[j - 1].dataType) > 0 ==>
      AllocaBytes(ins[..i]) < AllocaBytes(ins[..j])
  {
    if i < j {
      AllocaBytesGrow(ins, i, j - 1);
      assert ins[..j][..j - 1] == ins[..j - 1];
    }
  }

  /** Later allocas of sized types get strictly deeper slots than earlier ones. */
  lemma {:induction false} AllocaSlotsIncrease(s: WState, ins: seq<Instruction>, i: nat, j: nat)
    requires AllWritable(ins) && i < j < |ins| && ins[i].op == Alloca && ins[j].op == Alloca
    requires AllocaSize(ins[j].dataType) > 0
    ensures AllWritable(ins[..i + 1]) && AllWritable(ins[..j + 1])
    ensures var ti := InstrsText(s, ins[..i + 1]).0; var tj := InstrsText(s, ins[..j + 1]).0;
      var a, b := ins[i].dest.value.name, ins[j].dest.value.name;
      a in ti.memMap && b in tj.memMap && ti.memMap[a] < tj.memMap[b]
  {
    AllocaRecordsSlot(s, ins, i);
    AllocaRecordsSlot(s, ins, j);
    var ti, tj := InstrsText(s, ins[..i + 1]).0, InstrsText(s, ins[..j + 1]).0;
    assert ti.memMap[ins[i].dest.value.name] == s.stackPos + AllocaBytes(ins[..i + 1]);
    assert tj.memMap[ins[j].dest.value.name] == s.stackPos + AllocaBytes(ins[..j + 1]);
    AllocaBytesGrow(ins, i + 1, j + 1);
  }

  function AllocaOf(t: Type, name: string): (i: Instruction)
    ensures i.op == Alloca && WritableInstr(i) && i.dest.value.name == name
  {
    Instruction(Alloca, t, W.Some(Reg(name)), W.None, W.None, W.None)
  }

  /** Allocas of an i32, an i32 and an i64 reserve 4, 4 and 8 bytes in turn:
      from any state their slots lie 4, 8 and 16 bytes past the old stack
      position (so at 4, 8 and 16 for a fresh writer). */
  lemma ThreeAllocas(s: WState, a: string, b: string, c: string)
    ensures var t := InstrsText(s, [AllocaOf(Basic(I32), a), AllocaOf(Basic(I32), b), AllocaOf(Basic(I64), c)]).0;
      t.memMap == s.memMap[a := s.stackPos + 4][b := s.stackPos + 8][c := s.stackPos + 16] &&
      t.stackPos == s.stackPos + 16
  {
    var i0, i1, i2 := AllocaOf(Basic(I32), a), AllocaOf(Basic(I32), b), AllocaOf(Basic(I64), c);
    var ins := [i0, i1, i2];
    assert ins[..0] == [] && ins[..3] == ins;
    assert ins[0] == i0 && ins[1] == i1 && ins[2] == i2;
    InstrsTextSnoc(s, ins, 0);
    InstrsTextSnoc(s, ins, 1);
    InstrsTextSnoc(s, ins, 2);
    var s1 := InstrStep(s, i0).0;
    var s2 := InstrStep(s1, i1).0;
    var s3 := InstrStep(s2, i2).0;
    assert InstrsText(s, ins).0 == s3;
  }

  // ------------------------------------------------------------- composition

  /** The text of `a + b` is the text of `a`, then that of `b` from the state `a` left. */
  lemma {:induction false} InstrsTextAppend(s: WState, a: seq<Instruction>, b: seq<Instruction>)
    requires AllWritable(a) && AllWritable(b)
    ensures AllWritable(a + b)
    ensures var x := InstrsText(s, a); var y := InstrsText(x.0, b);
      InstrsText(s, a + b) == (y.0, x.1 + y.1)
  {
    var x := InstrsText(s, a);
    if b == [] {
      assert a + b == a && x.1 + "" == x.1;
    } else {
      var b0 := b[..|b| - 1];
      assert (a + b)[..|a + b| - 1] == a + b0;
      InstrsTextAppend(s, a, b0);
      var y0 := InstrsText(x.0, b0);
      var step := InstrStep(y0.0, b[|b| - 1]);
      Assoc(x.1, y0.1, step.1);
    }
  }

  /** The same for the functions of a module: the state flows on from one
      function to the next. */
  lemma {:induction false} FunctionsTextAppend(s: WState, a: seq<FunctionView>, b: seq<FunctionView>)
    requires FunctionsWritable(a) && FunctionsWritable(b)
    ensures FunctionsWritable(a + b)
    ensures var x := FunctionsText(s, a); var y := FunctionsText(x.0, b);
      FunctionsText(s, a + b) == (y.0, x.1 + y.1)
  {
    var x := FunctionsText(s, a);
    if b == [] {
      assert a + b == a && x.1 + "" == x.1;
    } else {
      var b0 := b[..|b| - 1];
      assert (a + b)[..|a + b| - 1] == a + b0;
      FunctionsTextAppend(s, a, b0);
      var y0 := FunctionsText(x.0, b0);
      var step := FunctionText(y0.0, b[|b| - 1]);
      Assoc(x.1, y0.1, step.1);
    }
  }

  // ------------------------------------------------------------ functions

  /** An extern function writes a blank line and its `.extern` directive,
      nothing else, and leaves the state alone. */
  lemma ExternFunctionText(s: WState, f: FunctionView)
    requires f.linkage == Extern
    ensures FunctionWritable(f)
    ensures FunctionText(s, f) == (s, "\n.extern " + f.name + "\n")
  {
    Assoc("\n", ".extern " + f.name, "\n");
    Assoc("\n", ".extern ", f.name);
    assert "\n" + ".extern " == "\n.extern ";
  }

  /** The head of a defined function's text: a blank line, the directives of
      its linkage, its label and the frame set-up. */
  function Head(f: FunctionView): string {
    "\n" + Directives(f.name, f.linkage) + Prologue(f.name, f.stackSize)
  }

  /** A defined function's text is its head, then its blocks, then `leave` and `ret`. */
  lemma DefinedFunctionText(s: WState, f: FunctionView)
    requires f.linkage != Extern && FunctionWritable(f)
    ensures var t := FunctionText(s, f).1; var body := BlocksText(s, f.blocks).1;
      |t| == |Head(f)| + |body| + |Epilogue| &&
      t[..|Head(f)|] == Head(f) &&
      t[|Head(f)|..|Head(f)| + |body|] == body &&
      t[|Head(f)| + |body|..] == "  leave\n  ret\n"
  {
    var t := FunctionText(s, f).1;
    var body := BlocksText(s, f.blocks).1;
    assert t == Head(f) + body + Epilogue;
    assert Epilogue == "  leave\n  ret\n";
  }

  /** A global `main` whose one block `entry` returns an immediate. */
  function ReturnMain(stackSize: nat, v: Ints.int64): FunctionView {
    FunctionView("main", Global, stackSize,
      [BlockView("entry", [Instruction(Ret, Basic(I32), W.None, W.Some(Imm(v)), W.None, W.None)])])
  }

  /** Its text: the head, the block label and the epilogue; the return value
      itself is not written, and the writer's state does not change. */
  lemma ReturnMainText(stackSize: nat, v: Ints.int64)
    ensures FunctionsWritable([ReturnMain(stackSize, v)])
    ensures FunctionsText(Start, [ReturnMain(stackSize, v)]) ==
      (Start, Head(ReturnMain(stackSize, v)) + "entry:\n" + Epilogue)
  {
    var f := ReturnMain(stackSize, v);
    var ins := f.blocks[0].instrs;
    assert InstrStep(Start, ins[0]) == (Start, "");
    assert ins[..0] == [];
    assert InstrsText(Start, ins) == (Start, "" + "");
    assert f.blocks[..0] == [];
    assert BlocksText(Start, f.blocks) == (Start, "" + ("entry" + ":\n") + "");
    assert "" + ("entry" + ":\n") + "" == "entry:\n";
    assert [f][..0] == [];
    var t := Head(f) + "entry:\n" + Epilogue;
    assert FunctionText(Start, f) == (Start, t);
    assert FunctionsText(Start, [f]) == (Start, "" + t);
    assert "" + t == t;
  }

  // --------------------------------------------------------------- a driver

  /** A fresh writer compiling `m`: the syntax line, the two sections, then the
      text of every function from the initial state. */
  method WriteModule(m: Module) returns (text: string, final: WState)
    requires FunctionsWritable(m.Views())
    ensures var r := FunctionsText(Start, m.Views());
      text == ".intel_syntax noprefix\n" + ".data\n" + ".text\n" + r.1 && final == r.0
    ensures final.stackPos == ModuleAllocaBytes(m.Views())
  {
    ghost var views := m.Views();
    var w := new Writer(m);
    assert m.Views() == views;
    w.Compile();
    assert m.Views() == views;
    text, final := w.assembly, w.State();
  }
}
