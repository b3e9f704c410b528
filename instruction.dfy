/** LLIR instructions (`Instruction`, `FunctionCall`) as values: an opcode, a
    data type, an optional destination and up to three optional sources; a
    call additionally carries the callee's name and its argument list. */
module Instructions {
  import W = Wrappers
  import opened Operands
  import opened Types

  datatype InstrType =
    | None
    | Ret | RetVoid
    | Add | Sub | SMul | UMul | SDiv | UDiv | SRem | URem
    | And | Or | Xor | Not
    | Br | Beq | Bne | Bgt | Blt | Bge | Ble
    | Call
    | Alloca | StructLoad | Load | GEP | StructStore | Store

  type Slot = W.Option<Operand>

  datatype Instruction =
    | Instruction(op: InstrType, dataType: Type, dest: Slot, src1: Slot, src2: Slot, src3: Slot)
    | FunctionCall(op: InstrType, dataType: Type, dest: Slot, src1: Slot, src2: Slot, src3: Slot,
                   callee: string, args: seq<Operand>)

  /** `new Instruction(type)`: data type void, no destination and no sources. */
  function NewInstruction(t: InstrType): (i: Instruction)
    ensures i.Instruction? && i.op == t && i.dataType.GetType() == Void
    ensures i.dest.None? && i.src1.None? && i.src2.None? && i.src3.None?
  {
    Instruction(t, Basic(Void), W.None, W.None, W.None, W.None)
  }

  /** `new FunctionCall(name, args)`: a call-typed instruction with no destination. */
  function NewFunctionCall(name: string, args: seq<Operand>): (i: Instruction)
    ensures i.FunctionCall? && i.op == Call && i.dataType.GetType() == Void
    ensures i.callee == name && i.args == args
    ensures i.dest.None? && i.src1.None? && i.src2.None? && i.src3.None?
  {
    FunctionCall(Call, Basic(Void), W.None, W.None, W.None, W.None, name, args)
  }

  /** Whether two instructions agree on everything a setter does not touch. */
  predicate SameCall(a: Instruction, b: Instruction) {
    a.op == b.op && a.FunctionCall? == b.FunctionCall? &&
    (a.FunctionCall? ==> a.callee == b.callee && a.args == b.args)
  }

  function SetDataType(i: Instruction, d: Type): (r: Instruction)
    ensures r.dataType == d && SameCall(r, i)
    ensures r.dest == i.dest && r.src1 == i.src1 && r.src2 == i.src2 && r.src3 == i.src3
  {
    i.(dataType := d)
  }

  function SetDest(i: Instruction, d: Operand): (r: Instruction)
    ensures r.dest == W.Some(d) && SameCall(r, i) && r.dataType == i.dataType
    ensures r.src1 == i.src1 && r.src2 == i.src2 && r.src3 == i.src3
  {
    i.(dest := W.Some(d))
  }

  function SetOperand1(i: Instruction, o: Operand): (r: Instruction)
    ensures r.src1 == W.Some(o) && SameCall(r, i) && r.dataType == i.dataType
    ensures r.dest == i.dest && r.src2 == i.src2 && r.src3 == i.src3
  {
    i.(src1 := W.Some(o))
  }

  function SetOperand2(i: Instruction, o: Operand): (r: Instruction)
    ensures r.src2 == W.Some(o) && SameCall(r, i) && r.dataType == i.dataType
    ensures r.dest == i.dest && r.src1 == i.src1 && r.src3 == i.src3
  {
    i.(src2 := W.Some(o))
  }

  function SetOperand3(i: Instruction, o: Operand): (r: Instruction)
    ensures r.src3 == W.Some(o) && SameCall(r, i) && r.dataType == i.dataType
    ensures r.dest == i.dest && r.src1 == i.src1 && r.src2 == i.src2
  {
    i.(src3 := W.Some(o))
  }

  /** `FunctionCall::setArgs`: replaces the argument list and nothing else. */
  function SetArgs(i: Instruction, args: seq<Operand>): (r: Instruction)
    requires i.FunctionCall?
    ensures r.FunctionCall? && r.args == args && r.callee == i.callee && r.op == i.op
    ensures r.dataType == i.dataType && r.dest == i.dest
    ensures r.src1 == i.src1 && r.src2 == i.src2 && r.src3 == i.src3
  {
    i.(args := args)
  }
}
