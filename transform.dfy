/** The lowering pass of transform.cpp (`Module::transform`): one forward scan
    per function that turns virtual registers into stack slots (Mem), argument
    registers (AReg), pointer registers (PReg) and general registers (HReg).
    The pass's maps and counters are one context value, reset per function. */
module Lowering {
  import W = Wrappers
  import opened Operands
  import opened Types
  import opened Instructions
  import opened Llir

  /** The pass's bookkeeping: names of alloca slots, the three name-to-index
      maps and their counters. */
  datatype Ctx = Ctx(memList: seq<string>, regMap: map<string, int>, argMap: map<string, int>,
                     ptrMap: map<string, int>, regCount: int, argCount: int, ptrCount: int)

  /** The state at the start of every function. */
  const Fresh: Ctx := Ctx([], map[], map[], map[], 0, 0, 0)

  predicate Known(c: Ctx, n: string) {
    n in c.memList || n in c.argMap || n in c.ptrMap || n in c.regMap
  }

  // ----------------------------------------------------------- checkOperand

  /** `checkOperand`: a virtual register the pass knows becomes the
      corresponding machine operand; everything else is returned as it is. */
  function CheckOperand(c: Ctx, o: Operand): (r: Operand)
    ensures !o.Reg? || !Known(c, o.name) ==> r == o
    ensures o.Reg? && Known(c, o.name) ==> r.IsHardware()
    ensures r.Mem? ==> o.Mem? || (o.Reg? && r.name == o.name)
  {
    if !o.Reg? then o
    else if o.name in c.memList then Mem(o.name)
    else if o.name in c.argMap then AReg(c.argMap[o.name])
    else if o.name in c.ptrMap then PReg(c.ptrMap[o.name])
    else if o.name in c.regMap then HReg(c.regMap[o.name])
    else o
  }

  /** The lookup order: stack slots, then arguments, then pointers, then
      general registers. A name in several maps takes the first. */
  lemma CheckOperandPriority(c: Ctx, n: string)
    ensures n in c.memList ==> CheckOperand(c, Reg(n)) == Mem(n)
    ensures n !in c.memList && n in c.argMap ==> CheckOperand(c, Reg(n)) == AReg(c.argMap[n])
    ensures n !in c.memList && n !in c.argMap && n in c.ptrMap ==>
      CheckOperand(c, Reg(n)) == PReg(c.ptrMap[n])
    ensures n !in c.memList && n !in c.argMap && n !in c.ptrMap && n in c.regMap ==>
      CheckOperand(c, Reg(n)) == HReg(c.regMap[n])
  {
  }

  /** Rewriting twice is rewriting once, and only unknown names stay virtual. */
  lemma CheckOperandIdempotent(c: Ctx, o: Operand)
    ensures CheckOperand(c, CheckOperand(c, o)) == CheckOperand(c, o)
    ensures CheckOperand(c, o).Reg? <==> o.Reg? && !Known(c, o.name)
  {
  }

  function RewriteSlot(c: Ctx, s: Slot): (r: Slot)
    ensures r.Some? <==> s.Some?
    ensures s.Some? ==> r.value == CheckOperand(c, s.value)
  {
    if s.Some? then W.Some(CheckOperand(c, s.value)) else W.None
  }

  /** The three source operands, each rewritten if present. */
  function RewriteOperands(c: Ctx, i: Instruction): (r: Instruction)
    ensures SameCall(r, i) && r.dataType == i.dataType && r.dest == i.dest
    ensures r.src1 == RewriteSlot(c, i.src1) && r.src2 == RewriteSlot(c, i.src2)
    ensures r.src3 == RewriteSlot(c, i.src3)
  {
    i.(src1 := RewriteSlot(c, i.src1), src2 := RewriteSlot(c, i.src2), src3 := RewriteSlot(c, i.src3))
  }

  /** A call's arguments, each rewritten. */
  function CheckOperands(c: Ctx, args: seq<Operand>): (r: seq<Operand>)
    ensures |r| == |args| && forall k :: 0 <= k < |args| ==> r[k] == CheckOperand(c, args[k])
  {
    if args == [] then [] else CheckOperands(c, args[..|args| - 1]) + [CheckOperand(c, args[|args| - 1])]
  }

  // ------------------------------------------------------- one instruction

  /** The opcodes whose dest becomes a general register. */
  predicate HRegOp(op: InstrType) {
    op == Load || op == StructLoad || op == Add || op == Sub || op == SMul || op == UMul ||
    op == SDiv || op == UDiv || op == And || op == Or || op == Xor
  }

  predicate RegDest(i: Instruction) {
    i.dest.Some? && i.dest.value.Reg?
  }

  /** What the pass's casts demand: the dests it renames are virtual
      registers, and a Call is a `FunctionCall`. */
  predicate Lowerable(i: Instruction) {
    ((i.op == Alloca || i.op == GEP || HRegOp(i.op)) ==> RegDest(i)) &&
    (i.op == Call ==> i.FunctionCall? && (i.dest.Some? ==> i.dest.value.Reg?))
  }

  predicate AllLowerable(ins: seq<Instruction>) {
    forall k :: 0 <= k < |ins| ==> Lowerable(ins[k])
  }

  /** Two instructions with the same shape: opcode, type, call target and
      argument count, and the same operand slots filled. */
  predicate SameShape(a: Instruction, b: Instruction) {
    a.op == b.op && a.dataType == b.dataType && a.FunctionCall? == b.FunctionCall? &&
    (a.FunctionCall? ==> a.callee == b.callee && |a.args| == |b.args|) &&
    a.dest.Some? == b.dest.Some? &&
    a.src1.Some? == b.src1.Some? && a.src2.Some? == b.src2.Some? && a.src3.Some? == b.src3.Some?
  }

  /** One step of the scan: the context after the instruction, and the
      instruction as rewritten. */
  function LowerInstr(c: Ctx, i: Instruction): (r: (Ctx, Instruction))
    requires Lowerable(i)
    ensures SameShape(r.1, i)
    ensures r.0.argMap == c.argMap && r.0.argCount == c.argCount
    ensures r.0.memList == c.memList + (if i.op == Alloca then [i.dest.value.name] else [])
    ensures r.0.ptrCount == c.ptrCount + (if i.op == GEP then 1 else 0)
  {
    if i.op == Alloca then
      var n := i.dest.value.name;
      (c.(memList := c.memList + [n]), SetDest(i, Mem(n)))
    else if i.op == Store || i.op == StructStore then
      var c1 := c.(regCount := 0);
      (c1, RewriteOperands(c1, i))
    else if i.op == GEP then
      var n := i.dest.value.name;
      var c1 := c.(ptrMap := c.ptrMap[n := c.ptrCount], ptrCount := c.ptrCount + 1);
      (c1, RewriteOperands(c1, SetDest(i, PReg(c.ptrCount))))
    else if HRegOp(i.op) then
      var n := i.dest.value.name;
      var c1 := c.(regMap := c.regMap[n := c.regCount], regCount := c.regCount + 1);
      (c1, RewriteOperands(c1, SetDest(i, HReg(c.regCount))))
    else if i.op == Call then
      var c1 := c.(regCount := 0);
      var i1 := SetArgs(i, CheckOperands(c1, i.args));
      if i.dest.Some? then
        var n := i.dest.value.name;
        var c2 := c1.(regMap := c1.regMap[n := 0], regCount := 1);
        (c2, RewriteOperands(c2, SetDest(i1, HReg(0))))
      else
        (c1, RewriteOperands(c1, i1))
    else
      (c, RewriteOperands(c, i))
  }

  /** An alloca's name joins memList and its dest becomes that stack slot;
      its sources are not rewritten. */
  lemma LowerAlloca(c: Ctx, i: Instruction)
    requires Lowerable(i) && i.op == Alloca
    ensures LowerInstr(c, i) ==
      (c.(memList := c.memList + [i.dest.value.name]), i.(dest := W.Some(Mem(i.dest.value.name))))
  {
  }

  /** A GEP's dest becomes the next pointer register. */
  lemma LowerGep(c: Ctx, i: Instruction)
    requires Lowerable(i) && i.op == GEP
    ensures var (c2, r) := LowerInstr(c, i);
      c2 == c.(ptrMap := c.ptrMap[i.dest.value.name := c.ptrCount], ptrCount := c.ptrCount + 1) &&
      r.dest == W.Some(PReg(c.ptrCount))
  {
  }

  /** A load or an arithmetic result takes the next general register. */
  lemma LowerValue(c: Ctx, i: Instruction)
    requires Lowerable(i) && HRegOp(i.op)
    ensures var (c2, r) := LowerInstr(c, i);
      c2 == c.(regMap := c.regMap[i.dest.value.name := c.regCount], regCount := c.regCount + 1) &&
      r.dest == W.Some(HReg(c.regCount))
  {
  }

  /** A store resets the general-register counter and keeps its dest. */
  lemma LowerStore(c: Ctx, i: Instruction)
    requires Lowerable(i) && (i.op == Store || i.op == StructStore)
    ensures var (c2, r) := LowerInstr(c, i);
      c2 == c.(regCount := 0) && r.dest == i.dest
  {
  }

  /** A call resets the counter before its arguments are rewritten, and its
      result, if any, takes general register 0. */
  lemma LowerCall(c: Ctx, i: Instruction)
    requires Lowerable(i) && i.op == Call
    ensures var (c2, r) := LowerInstr(c, i);
      r.FunctionCall? && r.args == CheckOperands(c.(regCount := 0), i.args) &&
      (i.dest.Some? ==> r.dest == W.Some(HReg(0)) && c2 == c.(regMap := c.regMap[i.dest.value.name := 0], regCount := 1)) &&
      (i.dest.None? ==> r.dest == W.None && c2 == c.(regCount := 0))
  {
  }

  /** Every instruction but an alloca has its present sources rewritten in
      the context after its own step, and its absent ones left absent. */
  lemma LowerSources(c: Ctx, i: Instruction)
    requires Lowerable(i) && i.op != Alloca
    ensures var (c2, r) := LowerInstr(c, i);
      r.src1 == RewriteSlot(c2, i.src1) && r.src2 == RewriteSlot(c2, i.src2) &&
      r.src3 == RewriteSlot(c2, i.src3)
  {
  }

  /** The dests the pass renames end up as machine operands. */
  lemma LoweredDests(c: Ctx, i: Instruction)
    requires Lowerable(i)
    requires i.op == Alloca || i.op == GEP || HRegOp(i.op) || (i.op == Call && i.dest.Some?)
    ensures LowerInstr(c, i).1.dest.Some? && LowerInstr(c, i).1.dest.value.IsHardware()
  {
  }

  /** The dest of a Not (and of a branch) is left a virtual register; in the
      source only the opcodes listed in the scan get a machine dest. */
  lemma NotDestStaysVirtual(c: Ctx, t: Type, n: string, op1: Operand)
    ensures LowerInstr(c, Instruction(Not, t, W.Some(Reg(n)), W.Some(op1), W.None, W.None)).1.dest
      == W.Some(Reg(n))
  {
  }

  // ------------------------------------------------------------- one block

  /** The scan over an instruction list, expressed by its last step. */
  function LowerInstrs(c: Ctx, ins: seq<Instruction>): (r: (Ctx, seq<Instruction>))
    requires AllLowerable(ins)
    ensures |r.1| == |ins|
  {
    if ins == [] then (c, [])
    else
      var prev := LowerInstrs(c, ins[..|ins| - 1]);
      var step := LowerInstr(prev.0, ins[|ins| - 1]);
      (step.0, prev.1 + [step.1])
  }

  function CountOp(op: InstrType, ins: seq<Instruction>): nat {
    if ins == [] then 0 else CountOp(op, ins[..|ins| - 1]) + (if ins[|ins| - 1].op == op then 1 else 0)
  }

  /** The alloca dest names, in order. */
  function AllocaNames(ins: seq<Instruction>): seq<string>
    requires AllLowerable(ins)
  {
    if ins == [] then []
    else AllocaNames(ins[..|ins| - 1]) + (if ins[|ins| - 1].op == Alloca then [ins[|ins| - 1].dest.value.name] else [])
  }

  lemma AllLowerablePrefix(ins: seq<Instruction>, k: nat)
    requires AllLowerable(ins) && k <= |ins|
    ensures AllLowerable(ins[..k])
  {
  }

  /** The scan unrolled: the context before each instruction and what each
      instruction is rewritten to, one `LowerInstr` step at a time. */
  lemma {:induction false} ScanPlan(c: Ctx, ins: seq<Instruction>) returns (ctxs: seq<Ctx>, outs: seq<Instruction>)
    requires AllLowerable(ins)
    ensures |ctxs| == |ins| + 1 && ctxs[0] == c
    ensures (ctxs[|ins|], outs) == LowerInstrs(c, ins)
    ensures forall k :: 0 <= k < |ins| ==> (ctxs[k + 1], outs[k]) == LowerInstr(ctxs[k], ins[k])
  {
    if ins == [] {
      ctxs, outs := [c], [];
    } else {
      var init := ins[..|ins| - 1];
      var cs, os := ScanPlan(c, init);
      var step := LowerInstr(cs[|init|], ins[|init|]);
      ctxs, outs := cs + [step.0], os + [step.1];
      forall k | 0 <= k < |ins|
        ensures (ctxs[k + 1], outs[k]) == LowerInstr(ctxs[k], ins[k])
      {
        if k < |init| {
          assert ctxs[k] == cs[k] && ctxs[k + 1] == cs[k + 1] && outs[k] == os[k] && ins[k] == init[k];
        }
      }
    }
  }

  /** The scan keeps every instruction's shape. */
  lemma LowerInstrsShape(c: Ctx, ins: seq<Instruction>)
    requires AllLowerable(ins)
    ensures forall k :: 0 <= k < |ins| ==> SameShape(LowerInstrs(c, ins).1[k], ins[k])
  {
    var ctxs, outs := ScanPlan(c, ins);
    forall k | 0 <= k < |ins|
      ensures SameShape(outs[k], ins[k])
    {
      assert Lowerable(ins[k]);
      var st := LowerInstr(ctxs[k], ins[k]);
      assert (ctxs[k + 1], outs[k]) == st;
    }
  }

  /** The scan leaves the argument map alone, records exactly the allocas in
      memList and counts exactly the GEPs in ptrCount. */
  lemma {:induction false} LowerInstrsCounts(c: Ctx, ins: seq<Instruction>)
    requires AllLowerable(ins)
    ensures var r := LowerInstrs(c, ins).0;
      r.argMap == c.argMap && r.argCount == c.argCount &&
      r.memList == c.memList + AllocaNames(ins) &&
      r.ptrCount == c.ptrCount + CountOp(GEP, ins)
  {
    if ins != [] {
      LowerInstrsCounts(c, ins[..|ins| - 1]);
    }
  }

  /** Output `j` of a scan is instruction `j` lowered in the context the
      scan of the instructions before it leaves. */
  lemma {:induction false} ScanAt(c: Ctx, ins: seq<Instruction>, j: nat)
    requires AllLowerable(ins) && j < |ins|
    ensures AllLowerable(ins[..j])
    ensures LowerInstrs(c, ins).1[j] == LowerInstr(LowerInstrs(c, ins[..j]).0, ins[j]).1
  {
    var init := ins[..|ins| - 1];
    if j == |ins| - 1 {
      assert init == ins[..j];
    } else {
      assert init[..j] == ins[..j] && init[j] == ins[j];
      ScanAt(c, init, j);
    }
  }

  /** GEP dests are numbered 0, 1, 2, ... in scan order (from the context's
      pointer counter), independently of the general registers. */
  lemma GepNumbering(c: Ctx, ins: seq<Instruction>, j: nat)
    requires AllLowerable(ins) && j < |ins| && ins[j].op == GEP
    ensures LowerInstrs(c, ins).1[j].dest == W.Some(PReg(c.ptrCount + CountOp(GEP, ins[..j])))
  {
    ScanAt(c, ins, j);
    var p := LowerInstrs(c, ins[..j]).0;
    LowerInstrsCounts(c, ins[..j]);
    assert p.ptrCount == c.ptrCount + CountOp(GEP, ins[..j]);
    LowerGep(p, ins[j]);
    assert LowerInstr(p, ins[j]).1.dest == W.Some(PReg(p.ptrCount));
  }

  // ---------------------------------------------------- arguments, blocks

  /** The argument loop: each name gets the next argument index. */
  function AssignArgs(c: Ctx, names: seq<string>): (r: Ctx)
    ensures r.argCount == c.argCount + |names|
    ensures r.memList == c.memList && r.regMap == c.regMap && r.ptrMap == c.ptrMap
    ensures r.regCount == c.regCount && r.ptrCount == c.ptrCount
    ensures forall k :: 0 <= k < |names| ==> names[k] in r.argMap
  {
    if names == [] then c
    else
      var c1 := AssignArgs(c, names[..|names| - 1]);
      c1.(argMap := c1.argMap[names[|names| - 1] := c1.argCount], argCount := c1.argCount + 1)
  }

  predicate Distinct(names: seq<string>) {
    forall j, k :: 0 <= j < k < |names| ==> names[j] != names[k]
  }

  /** With distinct argument names, the j-th one maps to the counter's old
      value plus j. */
  lemma {:induction false} AssignArgsMaps(c: Ctx, names: seq<string>, j: nat)
    requires Distinct(names) && j < |names|
    ensures names[j] in AssignArgs(c, names).argMap
    ensures AssignArgs(c, names).argMap[names[j]] == c.argCount + j
  {
    var init := names[..|names| - 1];
    if j < |names| - 1 {
      assert init[j] == names[j];
      AssignArgsMaps(c, init, j);
    }
  }

  function AllBlocksLowerable(bss: seq<seq<Instruction>>): bool {
    forall k :: 0 <= k < |bss| ==> AllLowerable(bss[k])
  }

  /** The block loop: before each block the argument loop runs again, then
      the block's instructions are scanned. */
  function LowerBlocks(c: Ctx, names: seq<string>, bss: seq<seq<Instruction>>): (r: (Ctx, seq<seq<Instruction>>))
    requires AllBlocksLowerable(bss)
    ensures |r.1| == |bss|
  {
    if bss == [] then (c, [])
    else
      var prev := LowerBlocks(c, names, bss[..|bss| - 1]);
      var step := LowerInstrs(AssignArgs(prev.0, names), bss[|bss| - 1]);
      (step.0, prev.1 + [step.1])
  }

  /** Scanning one more block is one more step. */
  lemma LowerBlocksSnoc(c: Ctx, names: seq<string>, bss: seq<seq<Instruction>>, x: seq<Instruction>)
    requires AllBlocksLowerable(bss) && AllLowerable(x)
    ensures AllBlocksLowerable(bss + [x])
    ensures var prev := LowerBlocks(c, names, bss); var step := LowerInstrs(AssignArgs(prev.0, names), x);
      LowerBlocks(c, names, bss + [x]) == (step.0, prev.1 + [step.1])
  {
    assert (bss + [x])[..|bss|] == bss;
  }

  /** The block loop keeps every block's length and every instruction's shape. */
  lemma {:induction false} LowerBlocksShape(c: Ctx, names: seq<string>, bss: seq<seq<Instruction>>)
    requires AllBlocksLowerable(bss)
    ensures var r := LowerBlocks(c, names, bss).1;
      forall k :: 0 <= k < |bss| ==>
        |r[k]| == |bss[k]| && forall j :: 0 <= j < |bss[k]| ==> SameShape(r[k][j], bss[k][j])
  {
    if bss != [] {
      var init := bss[..|bss| - 1];
      assert AllBlocksLowerable(init);
      LowerBlocksShape(c, names, init);
      var prev := LowerBlocks(c, names, init);
      var a := AssignArgs(prev.0, names);
      LowerInstrsShape(a, bss[|init|]);
      var r := LowerBlocks(c, names, bss).1;
      assert r == prev.1 + [LowerInstrs(a, bss[|init|]).1];
      forall k | 0 <= k < |init|
        ensures r[k] == prev.1[k] && bss[k] == init[k]
      {
      }
    }
  }

  /** One function: the scan from a fresh context. Every block keeps its
      length and every instruction its shape. */
  function LowerFunction(names: seq<string>, bss: seq<seq<Instruction>>): (r: seq<seq<Instruction>>)
    requires AllBlocksLowerable(bss)
    ensures |r| == |bss|
    ensures forall k :: 0 <= k < |bss| ==>
      |r[k]| == |bss[k]| && forall j :: 0 <= j < |bss[k]| ==> SameShape(r[k][j], bss[k][j])
  {
    LowerBlocksShape(Fresh, names, bss);
    LowerBlocks(Fresh, names, bss).1
  }

  /** The argument counter is never reset inside a function: after k blocks
      it has grown by k times the argument count. */
  lemma {:induction false} ArgCountAfterBlocks(c: Ctx, names: seq<string>, bss: seq<seq<Instruction>>)
    requires AllBlocksLowerable(bss)
    ensures LowerBlocks(c, names, bss).0.argCount == c.argCount + |bss| * |names|
  {
    if bss != [] {
      var init := bss[..|bss| - 1];
      ArgCountAfterBlocks(c, names, init);
      var a := AssignArgs(LowerBlocks(c, names, init).0, names);
      LowerInstrsCounts(a, bss[|bss| - 1]);
      assert LowerBlocks(c, names, bss).0 == LowerInstrs(a, bss[|bss| - 1]).0;
      assert |bss| * |names| == (|init| + 1) * |names| == |init| * |names| + |names|;
    }
  }

  /** So argument j is AReg(j) only in the first block: in block k it is
      AReg(k * n + j) for n arguments. */
  lemma {:induction false} ArgumentRegisterInBlock(names: seq<string>, bss: seq<seq<Instruction>>, k: nat, j: nat)
    requires AllBlocksLowerable(bss) && Distinct(names) && k < |bss| && j < |names|
    ensures var before := LowerBlocks(Fresh, names, bss[..k]).0;
      AssignArgs(before, names).argMap[names[j]] == k * |names| + j
  {
    var prefix := bss[..k];
    ArgCountAfterBlocks(Fresh, names, prefix);
    AssignArgsMaps(LowerBlocks(Fresh, names, prefix).0, names, j);
  }

  // --------------------------------------------------------- scenarios

  function LoadOf(n: string, src: string): Instruction {
    Instruction(Load, Basic(I32), W.Some(Reg(n)), W.Some(Reg(src)), W.None, W.None)
  }

  /** Scanning one more instruction is one more step. */
  lemma LowerInstrsSnoc(c: Ctx, ins: seq<Instruction>, x: Instruction)
    requires AllLowerable(ins) && Lowerable(x)
    ensures AllLowerable(ins + [x])
    ensures var prev := LowerInstrs(c, ins); var step := LowerInstr(prev.0, x);
      LowerInstrs(c, ins + [x]) == (step.0, prev.1 + [step.1])
  {
    assert (ins + [x])[..|ins|] == ins;
  }

  /** A store resets the general registers: in `load; store; load` (scanned
      step by step, as `ScanPlan` unrolls any scan) the second load reuses HReg 0, and the
      store reads the first load's value from HReg 0. */
  lemma StoreResetsRegisters(a: string, b: string, p: string)
    ensures var st := Instruction(Store, Basic(I32), W.None, W.Some(Reg(a)), W.Some(Reg(p)), W.None);
      var s0 := LowerInstr(Fresh, LoadOf(a, p));
      var s1 := LowerInstr(s0.0, st);
      var s2 := LowerInstr(s1.0, LoadOf(b, p));
      s0.1.dest == W.Some(HReg(0)) && s1.1.src1 == W.Some(HReg(0)) && s2.1.dest == W.Some(HReg(0))
  {
    var st := Instruction(Store, Basic(I32), W.None, W.Some(Reg(a)), W.Some(Reg(p)), W.None);
    var s0 := LowerInstr(Fresh, LoadOf(a, p));
    LowerValue(Fresh, LoadOf(a, p));
    var s1 := LowerInstr(s0.0, st);
    LowerStore(s0.0, st);
    LowerSources(s0.0, st);
    assert s1.0 == s0.0.(regCount := 0);
    LowerValue(s1.0, LoadOf(b, p));
  }

  /** A call resets them too, and its own result takes HReg 0: in
      `load; call; load` the call's argument reads HReg 0 and the second
      load takes HReg 1. */
  lemma CallResetsRegisters(a: string, b: string, x: string, p: string)
    ensures var call := FunctionCall(Call, Basic(I32), W.Some(Reg(x)), W.None, W.None, W.None, "f", [Reg(a)]);
      var s0 := LowerInstr(Fresh, LoadOf(a, p));
      var s1 := LowerInstr(s0.0, call);
      var s2 := LowerInstr(s1.0, LoadOf(b, p));
      s0.1.dest == W.Some(HReg(0)) && s1.1.dest == W.Some(HReg(0)) &&
      s1.1.FunctionCall? && s1.1.args == [HReg(0)] && s2.1.dest == W.Some(HReg(1))
  {
    var call := FunctionCall(Call, Basic(I32), W.Some(Reg(x)), W.None, W.None, W.None, "f", [Reg(a)]);
    var s0 := LowerInstr(Fresh, LoadOf(a, p));
    LowerValue(Fresh, LoadOf(a, p));
    var c1 := s0.0.(regCount := 0);
    assert CheckOperands(c1, [Reg(a)]) == [HReg(0)];
    var s1 := LowerInstr(s0.0, call);
    LowerCall(s0.0, call);
    LowerValue(s1.0, LoadOf(b, p));
  }

  // ----------------------------------------------------------- the scan

  /** The argument loop of one block. */
  method AssignArgRegisters(f: Function, c: Ctx) returns (r: Ctx)
    requires |f.args| <= |f.varRegs|
    ensures r == AssignArgs(c, f.ArgRegNames())
  {
    r := c;
    var names := f.ArgRegNames();
    var j := 0;
    while j < |f.args|
      invariant 0 <= j <= |names|
      invariant r == AssignArgs(c, names[..j])
    {
      assert names[..j + 1][..j] == names[..j];
      r := r.(argMap := r.argMap[f.GetArg(j).name := r.argCount], argCount := r.argCount + 1);
      j := j + 1;
    }
    assert names[..j] == names;
  }

  /** A call's argument loop. */
  method LowerArgs(c: Ctx, args: seq<Operand>) returns (out: seq<Operand>)
    ensures out == CheckOperands(c, args)
  {
    out := [];
    for k := 0 to |args|
      invariant out == CheckOperands(c, args[..k])
    {
      assert args[..k + 1][..k] == args[..k];
      out := out + [CheckOperand(c, args[k])];
    }
    assert args[..|args|] == args;
  }

  /** The operand rewrite at the end of the scan's loop body. */
  method RewriteStep(c: Ctx, i: Instruction) returns (r: Instruction)
    ensures r == RewriteOperands(c, i)
  {
    r := i;
    if r.src1.Some? {
      r := SetOperand1(r, CheckOperand(c, r.src1.value));
    }
    if r.src2.Some? {
      r := SetOperand2(r, CheckOperand(c, r.src2.value));
    }
    if r.src3.Some? {
      r := SetOperand3(r, CheckOperand(c, r.src3.value));
    }
  }

  /** The switch and the operand rewrite for one instruction. */
  method LowerStep(c: Ctx, i: Instruction) returns (c2: Ctx, r: Instruction)
    requires Lowerable(i)
    ensures (c2, r) == LowerInstr(c, i)
  {
    c2, r := c, i;
    if i.op == Alloca {
      var n := i.dest.value.name;
      c2 := c2.(memList := c2.memList + [n]);
      r := SetDest(r, Mem(n));
      return;
    } else if i.op == Store || i.op == StructStore {
      c2 := c2.(regCount := 0);
    } else if i.op == GEP {
      var n := i.dest.value.name;
      c2 := c2.(ptrMap := c2.ptrMap[n := c2.ptrCount], ptrCount := c2.ptrCount + 1);
      r := SetDest(r, PReg(c2.ptrCount - 1));
    } else if HRegOp(i.op) {
      var n := i.dest.value.name;
      c2 := c2.(regMap := c2.regMap[n := c2.regCount], regCount := c2.regCount + 1);
      r := SetDest(r, HReg(c2.regCount - 1));
    } else if i.op == Call {
      c2 := c2.(regCount := 0);
      var args := LowerArgs(c2, i.args);
      r := SetArgs(r, args);
      if i.dest.Some? {
        var n := i.dest.value.name;
        c2 := c2.(regMap := c2.regMap[n := c2.regCount], regCount := c2.regCount + 1);
        r := SetDest(r, HReg(c2.regCount - 1));
      }
    }
    r := RewriteStep(c2, r);
  }

  /** The instruction loop of one block, rewriting each instruction in place. */
  method LowerBlockInPlace(b: Block, c: Ctx) returns (c2: Ctx)
    requires AllLowerable(b.instrs)
    modifies b`instrs
    ensures (c2, b.instrs) == LowerInstrs(c, old(b.instrs))
  {
    ghost var ins := b.instrs;
    ghost var ctxs, outs := ScanPlan(c, ins);
    c2 := c;
    var j := 0;
    while j < |b.instrs|
      invariant |b.instrs| == |ins| && 0 <= j <= |ins| && c2 == ctxs[j]
      invariant forall k :: 0 <= k < j ==> b.instrs[k] == outs[k]
      invariant forall k :: j <= k < |ins| ==> b.instrs[k] == ins[k]
    {
      var x;
      c2, x := LowerStep(c2, b.GetInstruction(j));
      b.instrs := b.instrs[j := x];
      j := j + 1;
    }
    assert b.instrs == outs;
  }

  /** What the scan needs of a function: every argument type has its
      register, and every instruction passes the pass's casts. */
  ghost predicate ReadyForLowering(f: Function)
    reads f, f.blocks
  {
    |f.args| <= |f.varRegs| && forall j :: 0 <= j < |f.blocks| ==> AllLowerable(f.blocks[j].instrs)
  }

  /** The block loop unrolled: the context before each block and the
      instructions each block is lowered to. */
  lemma {:induction false} LoweringPlan(names: seq<string>, bss: seq<seq<Instruction>>)
      returns (ctxs: seq<Ctx>, target: seq<seq<Instruction>>)
    requires AllBlocksLowerable(bss)
    ensures |ctxs| == |bss| + 1 && ctxs[0] == Fresh
    ensures (ctxs[|bss|], target) == LowerBlocks(Fresh, names, bss)
    ensures forall k :: 0 <= k < |bss| ==>
      (ctxs[k + 1], target[k]) == LowerInstrs(AssignArgs(ctxs[k], names), bss[k])
  {
    if bss == [] {
      ctxs, target := [Fresh], [];
    } else {
      var init := bss[..|bss| - 1];
      assert AllBlocksLowerable(init);
      var cs, ts := LoweringPlan(names, init);
      var step := LowerInstrs(AssignArgs(cs[|init|], names), bss[|init|]);
      ctxs, target := cs + [step.0], ts + [step.1];
      forall k | 0 <= k < |bss|
        ensures (ctxs[k + 1], target[k]) == LowerInstrs(AssignArgs(ctxs[k], names), bss[k])
      {
        if k < |init| {
          assert ctxs[k] == cs[k] && ctxs[k + 1] == cs[k + 1] && target[k] == ts[k] && bss[k] == init[k];
        }
      }
    }
  }

  /** One iteration of the function loop: reset, then the block loop. Only
      the blocks' instruction lists change. */
  method LowerFunctionInPlace(f: Function, ghost bss: seq<seq<Instruction>>)
    requires |f.args| <= |f.varRegs| && AllBlocksLowerable(bss) && BlocksDistinct(f.blocks)
    requires |bss| == |f.blocks| && forall k :: 0 <= k < |bss| ==> f.blocks[k].instrs == bss[k]
    modifies f.blocks`instrs
    ensures forall k :: 0 <= k < |bss| ==> f.blocks[k].instrs == LowerFunction(f.ArgRegNames(), bss)[k]
  {
    var bs := f.blocks;
    ghost var ctxs, target := LoweringPlan(f.ArgRegNames(), bss);
    var c := Fresh;
    var i := 0;
    while i < |bs|
      invariant 0 <= i <= |bs| && c == ctxs[i]
      invariant forall k :: 0 <= k < i ==> bs[k].instrs == target[k]
      invariant forall k :: i <= k < |bs| ==> bs[k].instrs == bss[k]
    {
      var b := bs[i];
      c := AssignArgRegisters(f, c);
      c := LowerBlockInPlace(b, c);
      i := i + 1;
    }
    assert target == LowerFunction(f.ArgRegNames(), bss);
  }

  ghost predicate ModuleReady(m: Module)
    reads m, m.functions, set k, j | 0 <= k < |m.functions| && 0 <= j < |m.functions[k].blocks| :: m.functions[k].blocks[j]
  {
    m.Tree() && forall k :: 0 <= k < |m.functions| ==> ReadyForLowering(m.functions[k])
  }

  /** The instruction lists of every function, in order. */
  ghost function AllInstrLists(fs: seq<Function>): (r: seq<seq<seq<Instruction>>>)
    reads (set f | f in fs), (set f, b | f in fs && b in f.blocks :: b)
    ensures |r| == |fs| && forall k :: 0 <= k < |fs| ==> r[k] == InstrLists(fs[k].blocks)
  {
    if fs == [] then []
    else
      var f := fs[|fs| - 1];
      assert f in fs;
      assert forall b :: b in f.blocks ==> b in (set g, c | g in fs && c in g.blocks :: c);
      AllInstrLists(fs[..|fs| - 1]) + [InstrLists(f.blocks)]
  }

  /** Two different functions share no block. */
  lemma NoSharedBlocks(fs: seq<Function>, i: nat, k: nat)
    requires Apart(fs) && i < |fs| && k < |fs| && i != k
    ensures forall j :: 0 <= j < |fs[k].blocks| ==> fs[k].blocks[j] !in fs[i].blocks
  {
  }

  /** `f`'s blocks now hold the lowering of the instruction lists `bss`. */
  ghost predicate Lowered(f: Function, bss: seq<seq<Instruction>>)
    reads f, f.blocks
  {
    |f.args| <= |f.varRegs| && AllBlocksLowerable(bss) &&
    InstrLists(f.blocks) == LowerFunction(f.ArgRegNames(), bss)
  }

  /** One iteration of the function loop: `fs[i]` is lowered in place and
      no other function's instruction lists change. */
  method LowerNth(fs: seq<Function>, i: nat, ghost bss: seq<seq<Instruction>>)
    requires Apart(fs) && i < |fs|
    requires |fs[i].args| <= |fs[i].varRegs| && AllBlocksLowerable(bss) && InstrLists(fs[i].blocks) == bss
    modifies fs[i].blocks`instrs
    ensures InstrLists(fs[i].blocks) == LowerFunction(fs[i].ArgRegNames(), bss)
    ensures forall k :: 0 <= k < |fs| && k != i ==> InstrLists(fs[k].blocks) == old(InstrLists(fs[k].blocks))
  {
    var f := fs[i];
    assert BlocksDistinct(f.blocks);
    LowerFunctionInPlace(f, bss);
    assert InstrLists(f.blocks) == LowerFunction(f.ArgRegNames(), bss);
    forall k | 0 <= k < |fs| && k != i
      ensures InstrLists(fs[k].blocks) == old(InstrLists(fs[k].blocks))
    {
      NoSharedBlocks(fs, i, k);
    }
  }

  /** The function loop of `Module::transform`: each function in turn, the
      others untouched. */
  method LowerFunctions(fs: seq<Function>, ghost blocks: set<Block>, ghost before: seq<seq<seq<Instruction>>>)
    requires Apart(fs) && |before| == |fs|
    requires forall k :: 0 <= k < |fs| ==> |fs[k].args| <= |fs[k].varRegs| && AllBlocksLowerable(before[k])
    requires forall k :: 0 <= k < |fs| ==> InstrLists(fs[k].blocks) == before[k]
    requires forall k, j :: 0 <= k < |fs| && 0 <= j < |fs[k].blocks| ==> fs[k].blocks[j] in blocks
    modifies blocks`instrs
    ensures forall k :: 0 <= k < |fs| ==> Lowered(fs[k], before[k])
  {
    ghost var target := seq(|fs|, k requires 0 <= k < |fs| && |fs[k].args| <= |fs[k].varRegs| && AllBlocksLowerable(before[k]) reads fs =>
      LowerFunction(fs[k].ArgRegNames(), before[k]));
    var i := 0;
    while i < |fs|
      invariant 0 <= i <= |fs|
      invariant forall k :: 0 <= k < i ==> InstrLists(fs[k].blocks) == target[k]
      invariant forall k :: i <= k < |fs| ==> InstrLists(fs[k].blocks) == before[k]
    {
      LowerNth(fs, i, before[i]);
      i := i + 1;
    }
  }

  /** `Module::transform`: every function is lowered on its own, from a fresh
      context, and nothing but instruction lists changes. */
  method Transform(m: Module)
    requires ModuleReady(m)
    modifies m.AllBlocks()`instrs
    ensures var before := old(AllInstrLists(m.functions));
      forall k :: 0 <= k < |m.functions| ==> Lowered(m.functions[k], before[k])
  {
    var fs := m.functions;
    ghost var before := AllInstrLists(fs);
    assert forall k :: 0 <= k < |fs| ==> ReadyForLowering(fs[k]);
    LowerFunctions(fs, m.AllBlocks(), before);
  }
}
