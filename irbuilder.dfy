/** The IR builder of irbuilder.hpp/irbuilder.cpp: a cursor into a module that
    appends instructions to the current block, numbers fresh virtual registers
    with `regCounter` and global strings with `lblCounter`, and folds binary
    operations on two immediates at build time. */
module IrBuilder {
  import W = Wrappers
  import opened Ints
  import opened Strings
  import opened Operands
  import opened Types
  import opened Instructions
  import opened Llir

  // ---------------------------------------------------------------- immediates

  /** `createI8`: the value widens to the 64-bit immediate unchanged. */
  function CreateI8(v: int8): (o: Operand)
    ensures o.Imm? && o.value as int == v as int
  {
    Imm(v as int64)
  }

  function CreateI16(v: int16): (o: Operand)
    ensures o.Imm? && o.value as int == v as int
  {
    Imm(v as int64)
  }

  function CreateI32(v: int32): (o: Operand)
    ensures o.Imm? && o.value as int == v as int
  {
    Imm(v as int64)
  }

  function CreateI64(v: int64): (o: Operand)
    ensures o.Imm? && o.value == v
  {
    Imm(v)
  }

  // ------------------------------------------------------------------ folding

  /** The opcodes `createBinaryOp` folds when both operands are immediates. */
  predicate Foldable(op: InstrType) {
    op == Add || op == Sub || op == SMul || op == SDiv || op == And || op == Or || op == Xor
  }

  predicate FoldsAt(op: InstrType, a: Operand, b: Operand) {
    Foldable(op) && a.Imm? && b.Imm?
  }

  /** What C++ leaves undefined when folding: dividing by zero, and the one
      quotient that does not fit in 64 bits. */
  predicate FoldDefined(op: InstrType, a: Operand, b: Operand) {
    FoldsAt(op, a, b) && op == SDiv ==> b.value != 0 && !(a.value == INT64_MIN && b.value == -1)
  }

  /** The folded value. Signed overflow of `+`, `-` and `*` is undefined in
      C++; the model takes the two's-complement wrap the hardware gives, so
      these results are congruent to the exact ones modulo 2^64. SDiv rounds
      toward zero: the remainder is smaller than the divisor and has the
      dividend's sign. */
  function FoldValue(op: InstrType, a: int64, b: int64): (r: int64)
    requires Foldable(op)
    requires op == SDiv ==> b != 0 && !(a == INT64_MIN && b == -1)
    ensures op == Add ==> (r as int - (a as int + b as int)) % TWO_64 == 0
    ensures op == Sub ==> (r as int - (a as int - b as int)) % TWO_64 == 0
    ensures op == SMul ==> (r as int - a as int * b as int) % TWO_64 == 0
    ensures op == SDiv ==> var rem := a as int - r as int * b as int;
      Abs(rem) < Abs(b as int) && (rem == 0 || (rem < 0 <==> a < 0))
  {
    match op
    case Add => Wrap64(a as int + b as int)
    case Sub => Wrap64(a as int - b as int)
    case SMul => Wrap64(a as int * b as int)
    case SDiv => TruncDivFits(a, b); TruncDivRemainder(a as int, b as int); TruncDiv(a as int, b as int) as int64
    case And => BitwiseInt64(BitAnd, a, b)
    case Or => BitwiseInt64(BitOr, a, b)
    case Xor => BitwiseInt64(BitXor, a, b)
  }

  /** Add, Sub and SMul fold to the exact result whenever it fits in 64 bits. */
  lemma {:induction false} FoldArithmetic(a: int64, b: int64)
    ensures -TWO_63 <= a as int + b as int < TWO_63 ==> FoldValue(Add, a, b) as int == a as int + b as int
    ensures -TWO_63 <= a as int - b as int < TWO_63 ==> FoldValue(Sub, a, b) as int == a as int - b as int
    ensures -TWO_63 <= a as int * b as int < TWO_63 ==> FoldValue(SMul, a, b) as int == a as int * b as int
  {
  }

  /** A folded SDiv is no larger in magnitude than the dividend. */
  lemma {:induction false} FoldDivisionTruncates(a: int64, b: int64)
    requires b != 0 && !(a == INT64_MIN && b == -1)
    ensures Abs(FoldValue(SDiv, a, b) as int) <= Abs(a as int)
  {
    TruncDivFits(a, b);
    var x, y := a as int, b as int;
    assert FoldValue(SDiv, a, b) as int == TruncDiv(x, y);
    TruncDivShrinks(x, y);
  }

  /** Add, SMul, And, Or and Xor fold symmetrically. */
  lemma {:induction false} FoldCommutes(op: InstrType, a: int64, b: int64)
    requires op == Add || op == SMul || op == And || op == Or || op == Xor
    ensures FoldValue(op, a, b) == FoldValue(op, b, a)
  {
    match op
    case Add =>
    case SMul =>
    case And => BitwiseInt64Commutes(BitAnd, a, b);
    case Or => BitwiseInt64Commutes(BitOr, a, b);
    case Xor => BitwiseInt64Commutes(BitXor, a, b);
  }

  /** Folding `(a ^ b) ^ b` gives back `a`; `a & -1` and `a | 0` give `a`. */
  lemma {:induction false} FoldBitwiseLaws(a: int64, b: int64)
    ensures FoldValue(Xor, FoldValue(Xor, a, b), b) == a
    ensures FoldValue(And, a, -1) == a && FoldValue(Or, a, 0) == a
  {
    XorInt64Twice(a, b);
    BitwiseInt64Identities(a);
  }

  // -------------------------------------------------------------- negation

  /** `createNeg` on an immediate: `int val = v * -1` keeps the low 32 bits of
      the negation, which `setValue` widens back to 64 bits. */
  function NegValue(v: int64): (r: int64)
    ensures -TWO_31 <= r as int < TWO_31
    ensures (r as int + v as int) % TWO_32 == 0
  {
    Wrap32(-(v as int)) as int64
  }

  /** On the 32-bit values except the smallest, folding a negation is exact;
      negating twice gives back the value cut to 32 bits. */
  lemma {:induction false} NegLaws(v: int64)
    ensures -TWO_31 < v as int < TWO_31 ==> NegValue(v) as int == -(v as int)
    ensures NegValue(NegValue(v)) as int == Wrap32(v as int) as int
  {
    var w := NegValue(v) as int;
    var x := NegValue(NegValue(v)) as int;
    var y := Wrap32(v as int) as int;
    assert (x + w) % 0x1_0000_0000 == 0 && (w + v as int) % 0x1_0000_0000 == 0;
    assert (y - v as int) % 0x1_0000_0000 == 0;
    assert (x - y) % 0x1_0000_0000 == 0;
    assert -0x1_0000_0000 < x - y < 0x1_0000_0000;
  }

  // ---------------------------------------------------------- string escape

  /** `createString`'s escape of one character: a newline becomes the two
      characters backslash and `n`. */
  function EscapeChar(c: char): string {
    if c == '\n' then "\\n" else [c]
  }

  function CountNewlines(s: string): nat {
    if s == [] then 0 else CountNewlines(s[..|s| - 1]) + (if s[|s| - 1] == '\n' then 1 else 0)
  }

  /** The escaped text, built left to right one character at a time: no
      newline survives, and each newline adds exactly one character. */
  function Escape(s: string): (r: string)
    ensures '\n' !in r
    ensures |r| == |s| + CountNewlines(s)
  {
    if s == [] then [] else Escape(s[..|s| - 1]) + EscapeChar(s[|s| - 1])
  }

  /** Escaping distributes over concatenation. */
  lemma {:induction false} EscapeAppend(a: string, b: string)
    ensures Escape(a + b) == Escape(a) + Escape(b)
  {
    if b != [] {
      assert (a + b)[..|a + b| - 1] == a + b[..|b| - 1];
      EscapeAppend(a, b[..|b| - 1]);
    } else {
      assert a + b == a;
    }
  }

  /** A string without newlines is left as it is. */
  lemma {:induction false} EscapeProperties(s: string)
    ensures '\n' !in s ==> Escape(s) == s
  {
    if s != [] {
      EscapeProperties(s[..|s| - 1]);
      assert s == s[..|s| - 1] + [s[|s| - 1]];
      assert '\n' in s[..|s| - 1] ==> '\n' in s;
    }
  }

  /** The reading a consumer of the emitted text applies: backslash-`n` back to a newline. */
  function Unescape(s: string): string
    decreases |s|
  {
    if s == [] then []
    else if |s| >= 2 && s[0] == '\\' && s[1] == 'n' then "\n" + Unescape(s[2..])
    else [s[0]] + Unescape(s[1..])
  }

  /** Escaping is undone by `Unescape` on strings without backslashes. */
  lemma {:induction false} UnescapeEscape(s: string)
    requires '\\' !in s
    ensures Unescape(Escape(s)) == s
  {
    if s != [] {
      var c, t := s[0], s[1..];
      assert s == [c] + t;
      EscapeAppend([c], t);
      assert Escape([c]) == EscapeChar(c) by {
        assert [c][..0] == [];
      }
      UnescapeEscape(t);
      var e := Escape(s);
      if c == '\n' {
        assert e == "\\n" + Escape(t);
        assert e[2..] == Escape(t);
      } else {
        assert e == [c] + Escape(t);
        assert e[1..] == Escape(t);
      }
    }
  }

  /** Without that proviso the escape loses information: a newline and a
      literal backslash-`n` escape the same. */
  lemma EscapeNotInjective()
    ensures Escape("\n") == Escape("\\n") && "\n" != "\\n"
  {
    assert "\\n"[..1] == "\\";
    assert "\\n"[..1][..0] == [];
    assert "\n"[..0] == [];
  }

  // ---------------------------------------------------------- fresh names

  /** The name of the `k`-th fresh virtual register. */
  function FreshReg(k: nat): (o: Operand)
    ensures o.Reg? && o.name == NatToString(k)
  {
    Reg(NatToString(k))
  }

  /** Registers made from different counter values have different names, and
      none made after `setCurrentFunction` reuses an argument name. */
  lemma {:induction false} FreshRegistersDistinct(j: nat, k: nat, argCount: nat)
    ensures j != k ==> FreshReg(j) != FreshReg(k)
    ensures k >= argCount ==> FreshReg(k).name !in ArgNames(argCount)
  {
    if FreshReg(j) == FreshReg(k) {
      NatToStringInjective(j, k);
    }
    if k >= argCount && FreshReg(k).name in ArgNames(argCount) {
      var i :| 0 <= i < argCount && ArgNames(argCount)[i] == NatToString(k);
      NatToStringInjective(i, k);
    }
  }

  function StringLabel(k: nat): string {
    "STR" + NatToString(k)
  }

  /** String labels from different counter values differ. */
  lemma {:induction false} StringLabelsDistinct(j: nat, k: nat)
    requires j != k
    ensures StringLabel(j) != StringLabel(k)
  {
    if StringLabel(j) == StringLabel(k) {
      assert StringLabel(j)[3..] == NatToString(j);
      assert StringLabel(k)[3..] == NatToString(k);
      NatToStringInjective(j, k);
    }
  }

  // -------------------------------------------------------------- builder

  /** The instruction `createBinaryOp` appends when it does not fold. */
  function BinaryInstr(t: Type, op1: Operand, op2: Operand, iType: InstrType, lbl: W.Option<string>, k: nat): Instruction {
    Instruction(iType, t, W.Some(FreshReg(k)), W.Some(op1), W.Some(op2),
      if lbl.Some? then W.Some(Label(lbl.value)) else W.None)
  }

  function NameOf(b: Block?): W.Option<string>
    reads b
  {
    if b == null then W.None else W.Some(b.name)
  }

  class Builder {
    var mod: Module
    var currentFunc: Function?
    var currentBlock: Block?
    var regCounter: nat
    var lblCounter: nat

    /** `IRBuilder(mod)`: the counters start at 0; the function and block
        cursors are unset (uninitialised in C++) until set. */
    constructor (mod: Module)
      ensures this.mod == mod && currentFunc == null && currentBlock == null
      ensures regCounter == 0 && lblCounter == 0
    {
      this.mod := mod;
      currentFunc := null;
      currentBlock := null;
      regCounter := 0;
      lblCounter := 0;
    }

    /** One instruction was appended to the current block and the register
        counter grew by `bump`; nothing else of the builder changed. */
    twostate predicate Emitted(i: Instruction, bump: nat)
      reads this, currentBlock
    {
      currentBlock != null && currentBlock == old(currentBlock) &&
      currentBlock.instrs == old(currentBlock.instrs) + [i] &&
      currentBlock.name == old(currentBlock.name) && currentBlock.id == old(currentBlock.id) &&
      regCounter == old(regCounter) + bump && lblCounter == old(lblCounter) &&
      mod == old(mod) && currentFunc == old(currentFunc)
    }

    /** Nothing of the builder or its current block changed. */
    twostate predicate Untouched()
      reads this, currentBlock
    {
      currentBlock == old(currentBlock) &&
      (currentBlock != null ==> currentBlock.instrs == old(currentBlock.instrs)) &&
      regCounter == old(regCounter) && lblCounter == old(lblCounter) &&
      mod == old(mod) && currentFunc == old(currentFunc)
    }

    /** `setCurrentFunction`: fresh registers continue after the arguments. */
    method SetCurrentFunction(f: Function)
      modifies this
      ensures currentFunc == f && regCounter == |f.args|
      ensures mod == old(mod) && currentBlock == old(currentBlock) && lblCounter == old(lblCounter)
    {
      currentFunc := f;
      regCounter := |f.args|;
    }

    /** `createBlock`: a new empty block, appended to the current function and
        made the insertion point. */
    method CreateBlock(name: string) returns (b: Block)
      requires currentFunc != null
      modifies this, currentFunc`blocks, currentFunc`blockID
      ensures fresh(b) && b.name == name && b.instrs == [] && currentBlock == b
      ensures currentFunc == old(currentFunc) && currentFunc.blocks == old(currentFunc.blocks) + [b]
      ensures b.id == old(currentFunc.blockID) && currentFunc.blockID == old(currentFunc.blockID) + 1
      ensures currentFunc.args == old(currentFunc.args) && currentFunc.name == old(currentFunc.name)
      ensures old(currentFunc.Valid()) ==> currentFunc.Valid()
      ensures mod == old(mod) && regCounter == old(regCounter) && lblCounter == old(lblCounter)
    {
      b := new Block(name);
      currentBlock := b;
      currentFunc.AddBlock(b);
    }

    /** `addBlock`: forwards to the current function. */
    method AddBlock(block: Block)
      requires currentFunc != null
      modifies currentFunc`blocks, currentFunc`blockID, block`id
      ensures currentFunc.blocks == old(currentFunc.blocks) + [block]
      ensures block.id == old(currentFunc.blockID) && currentFunc.blockID == old(currentFunc.blockID) + 1
      ensures block.name == old(block.name) && block.instrs == old(block.instrs)
      ensures old(currentFunc.Valid()) && block !in old(currentFunc.blocks) ==> currentFunc.Valid()
    {
      currentFunc.AddBlock(block);
    }

    /** `addBlockAfter`: forwards to the current function. */
    method AddBlockAfter(block: Block, newBlock: Block)
      requires currentFunc != null && currentFunc.Valid()
      requires IndexOf(Ids(currentFunc.blocks), block.id) >= 0 ==> newBlock !in currentFunc.blocks && newBlock != block
      modifies currentFunc`blocks, currentFunc`blockID, newBlock`id
      ensures currentFunc.Valid()
      ensures var p := IndexOf(old(Ids(currentFunc.blocks)), block.id);
        if p == -1 then
          currentFunc.blocks == old(currentFunc.blocks) && currentFunc.blockID == old(currentFunc.blockID) &&
          newBlock.id == old(newBlock.id)
        else
          currentFunc.blocks == old(currentFunc.blocks)[..p + 1] + [newBlock] + old(currentFunc.blocks)[p + 1..] &&
          newBlock.id == old(currentFunc.blockID) && currentFunc.blockID == old(currentFunc.blockID) + 1
    {
      currentFunc.AddBlockAfter(block, newBlock);
    }

    method SetInsertPoint(block: Block)
      modifies this
      ensures currentBlock == block
      ensures mod == old(mod) && currentFunc == old(currentFunc)
      ensures regCounter == old(regCounter) && lblCounter == old(lblCounter)
    {
      currentBlock := block;
    }

    /** `addInstruction`: appends exactly the given instruction. */
    method AddInstruction(i: Instruction)
      requires currentBlock != null
      modifies currentBlock
      ensures Emitted(i, 0)
    {
      currentBlock.AddInstruction(i);
    }

    /** `createString`: a global string labelled "STR<k>" for the old lbl
        counter, holding the escaped text, appended to the module. */
    method CreateString(val: string) returns (o: Operand)
      modifies this, mod
      ensures o == StringPtr(StringLabel(old(lblCounter)), Escape(val))
      ensures lblCounter == old(lblCounter) + 1 && regCounter == old(regCounter)
      ensures mod == old(mod) && mod.strings == old(mod.strings) + [o]
      ensures mod.functions == old(mod.functions) && mod.name == old(mod.name)
      ensures currentFunc == old(currentFunc) && currentBlock == old(currentBlock)
    {
      var name := "STR" + NatToString(lblCounter);
      lblCounter := lblCounter + 1;
      var val2 := "";
      var i := 0;
      while i < |val|
        invariant 0 <= i <= |val|
        invariant val2 == Escape(val[..i])
      {
        assert val[..i + 1][..i] == val[..i];
        if val[i] == '\n' {
          val2 := val2 + "\\n";
        } else {
          val2 := val2 + [val[i]];
        }
        i := i + 1;
      }
      assert val[..i] == val;
      o := StringPtr(name, val2);
      mod.AddStringPtr(o);
    }

    /** `createAlloca`: appends an Alloca whose dest is the next fresh register. */
    method CreateAlloca(t: Type) returns (r: Operand)
      requires currentBlock != null
      modifies this, currentBlock
      ensures r == FreshReg(old(regCounter))
      ensures Emitted(Instruction(Alloca, t, W.Some(r), W.None, W.None, W.None), 1)
    {
      var i := SetDataType(NewInstruction(Alloca), t);
      r := FreshReg(regCounter);
      regCounter := regCounter + 1;
      i := SetDest(i, r);
      currentBlock.AddInstruction(i);
    }

    /** `createStore`: value in operand 1, address in operand 2, no dest. */
    method CreateStore(t: Type, op: Operand, dest: Operand) returns (i: Instruction)
      requires currentBlock != null
      modifies currentBlock
      ensures i == Instruction(Store, t, W.None, W.Some(op), W.Some(dest), W.None)
      ensures Emitted(i, 0)
    {
      i := SetOperand2(SetOperand1(SetDataType(NewInstruction(Store), t), op), dest);
      currentBlock.AddInstruction(i);
    }

    /** `createStructStore`: pointer, field index as an immediate, value. */
    method CreateStructStore(t: Type, ptr: Operand, index: int32, val: Operand) returns (i: Instruction)
      requires currentBlock != null
      modifies currentBlock
      ensures i == Instruction(StructStore, t, W.None, W.Some(ptr), W.Some(Imm(index as int64)), W.Some(val))
      ensures Emitted(i, 0)
    {
      i := SetDataType(NewInstruction(StructStore), t);
      i := SetOperand3(SetOperand2(SetOperand1(i, ptr), Imm(index as int64)), val);
      currentBlock.AddInstruction(i);
    }

    /** `createLoad`: appends a Load from `src` into the next fresh register. */
    method CreateLoad(t: Type, src: Operand) returns (r: Operand)
      requires currentBlock != null
      modifies this, currentBlock
      ensures r == FreshReg(old(regCounter))
      ensures Emitted(Instruction(Load, t, W.Some(r), W.Some(src), W.None, W.None), 1)
    {
      var i := SetOperand1(SetDataType(NewInstruction(Load), t), src);
      r := FreshReg(regCounter);
      regCounter := regCounter + 1;
      i := SetDest(i, r);
      currentBlock.AddInstruction(i);
    }

    /** `createStructLoad`: like a load, with the field index as operand 2. */
    method CreateStructLoad(t: Type, src: Operand, index: int32) returns (r: Operand)
      requires currentBlock != null
      modifies this, currentBlock
      ensures r == FreshReg(old(regCounter))
      ensures Emitted(Instruction(StructLoad, t, W.Some(r), W.Some(src), W.Some(Imm(index as int64)), W.None), 1)
    {
      var i := SetOperand2(SetOperand1(SetDataType(NewInstruction(StructLoad), t), src), Imm(index as int64));
      r := FreshReg(regCounter);
      regCounter := regCounter + 1;
      i := SetDest(i, r);
      currentBlock.AddInstruction(i);
    }

    /** What `createBinaryOp` promises: with two immediates and a foldable
        opcode, the folded immediate and no change; otherwise one appended
        instruction, with the lbl of `destBlock` as operand 3 exactly when
        there is one, and the next fresh register as its dest and result. */
    twostate predicate BinaryOpDone(t: Type, op1: Operand, op2: Operand, iType: InstrType,
                                    lbl: W.Option<string>, r: Operand)
      reads this, currentBlock
      requires FoldDefined(iType, op1, op2)
    {
      if FoldsAt(iType, op1, op2) then
        r == Imm(FoldValue(iType, op1.value, op2.value)) && Untouched()
      else
        r == FreshReg(old(regCounter)) && Emitted(BinaryInstr(t, op1, op2, iType, lbl, old(regCounter)), 1)
    }

    /** `createBinaryOp`. The current block is dereferenced only when nothing folds. */
    method CreateBinaryOp(t: Type, op1: Operand, op2: Operand, iType: InstrType, destBlock: Block?)
      returns (r: Operand)
      requires FoldDefined(iType, op1, op2)
      requires !FoldsAt(iType, op1, op2) ==> currentBlock != null
      modifies this, currentBlock
      ensures BinaryOpDone(t, op1, op2, iType, old(NameOf(destBlock)), r)
    {
      if op1.Imm? && op2.Imm? && Foldable(iType) {
        return Imm(FoldValue(iType, op1.value, op2.value));
      }
      var i := SetOperand2(SetOperand1(SetDataType(NewInstruction(iType), t), op1), op2);
      if destBlock != null {
        i := SetOperand3(i, Label(destBlock.name));
      }
      r := FreshReg(regCounter);
      regCounter := regCounter + 1;
      i := SetDest(i, r);
      currentBlock.AddInstruction(i);
    }

    /** `createGEP`: never folded, even on two immediates. */
    method CreateGEP(t: Type, ptr: Operand, index: Operand) returns (r: Operand)
      requires currentBlock != null
      modifies this, currentBlock
      ensures r == FreshReg(old(regCounter))
      ensures Emitted(Instruction(GEP, t, W.Some(r), W.Some(ptr), W.Some(index), W.None), 1)
    {
      r := CreateBinaryOp(t, ptr, index, GEP, null);
    }

    method CreateAdd(t: Type, op1: Operand, op2: Operand) returns (r: Operand)
      requires !FoldsAt(Add, op1, op2) ==> currentBlock != null
      modifies this, currentBlock
      ensures BinaryOpDone(t, op1, op2, Add, W.None, r)
    {
      r := CreateBinaryOp(t, op1, op2, Add, null);
    }

    method CreateSub(t: Type, op1: Operand, op2: Operand) returns (r: Operand)
      requires !FoldsAt(Sub, op1, op2) ==> currentBlock != null
      modifies this, currentBlock
      ensures BinaryOpDone(t, op1, op2, Sub, W.None, r)
    {
      r := CreateBinaryOp(t, op1, op2, Sub, null);
    }

    method CreateSMul(t: Type, op1: Operand, op2: Operand) returns (r: Operand)
      requires !FoldsAt(SMul, op1, op2) ==> currentBlock != null
      modifies this, currentBlock
      ensures BinaryOpDone(t, op1, op2, SMul, W.None, r)
    {
      r := CreateBinaryOp(t, op1, op2, SMul, null);
    }

    method CreateSDiv(t: Type, op1: Operand, op2: Operand) returns (r: Operand)
      requires FoldDefined(SDiv, op1, op2)
      requires !FoldsAt(SDiv, op1, op2) ==> currentBlock != null
      modifies this, currentBlock
      ensures BinaryOpDone(t, op1, op2, SDiv, W.None, r)
    {
      r := CreateBinaryOp(t, op1, op2, SDiv, null);
    }

    method CreateAnd(t: Type, op1: Operand, op2: Operand) returns (r: Operand)
      requires !FoldsAt(And, op1, op2) ==> currentBlock != null
      modifies this, currentBlock
      ensures BinaryOpDone(t, op1, op2, And, W.None, r)
    {
      r := CreateBinaryOp(t, op1, op2, And, null);
    }

    method CreateOr(t: Type, op1: Operand, op2: Operand) returns (r: Operand)
      requires !FoldsAt(Or, op1, op2) ==> currentBlock != null
      modifies this, currentBlock
      ensures BinaryOpDone(t, op1, op2, Or, W.None, r)
    {
      r := CreateBinaryOp(t, op1, op2, Or, null);
    }

    method CreateXor(t: Type, op1: Operand, op2: Operand) returns (r: Operand)
      requires !FoldsAt(Xor, op1, op2) ==> currentBlock != null
      modifies this, currentBlock
      ensures BinaryOpDone(t, op1, op2, Xor, W.None, r)
    {
      r := CreateBinaryOp(t, op1, op2, Xor, null);
    }

    /** `createNeg`: an immediate comes back negated (cut to 32 bits) and
        nothing is appended; any other operand gets a Not instruction. */
    method CreateNeg(t: Type, op1: Operand) returns (r: Operand)
      requires !op1.Imm? ==> currentBlock != null
      modifies this, currentBlock
      ensures op1.Imm? ==> r == Imm(NegValue(op1.value)) && Untouched()
      ensures !op1.Imm? ==>
        r == FreshReg(old(regCounter)) && Emitted(Instruction(Not, t, W.Some(r), W.Some(op1), W.None, W.None), 1)
    {
      if op1.Imm? {
        var v: int32 := Wrap32(op1.value as int * -1);
        return SetValue(op1, v as int64);
      }
      var i := SetOperand1(SetDataType(NewInstruction(Not), t), op1);
      r := FreshReg(regCounter);
      regCounter := regCounter + 1;
      i := SetDest(i, r);
      currentBlock.AddInstruction(i);
    }

    /** `createBeq`: two equal immediates give an unconditional Br to
        `destBlock`, which still takes a fresh register as its dest; every
        other case is a Beq through `createBinaryOp`. */
    method CreateBeq(t: Type, op1: Operand, op2: Operand, destBlock: Block?) returns (r: Operand)
      requires currentBlock != null
      requires op1.Imm? && op2.Imm? && op1.value == op2.value ==> destBlock != null
      modifies this, currentBlock
      ensures r == FreshReg(old(regCounter))
      ensures op1.Imm? && op2.Imm? && op1.value == op2.value ==>
        Emitted(Instruction(Br, Basic(Void), W.Some(r), W.Some(Label(old(destBlock.name))), W.None, W.None), 1)
      ensures !(op1.Imm? && op2.Imm? && op1.value == op2.value) ==>
        Emitted(BinaryInstr(t, op1, op2, Beq, old(NameOf(destBlock)), old(regCounter)), 1)
    {
      if op1.Imm? && op2.Imm? && op1.value == op2.value {
        var i := SetOperand1(NewInstruction(Br), Label(destBlock.name));
        r := FreshReg(regCounter);
        regCounter := regCounter + 1;
        i := SetDest(i, r);
        currentBlock.AddInstruction(i);
        return;
      }
      r := CreateBinaryOp(t, op1, op2, Beq, destBlock);
    }

    method CreateBne(t: Type, op1: Operand, op2: Operand, destBlock: Block?) returns (r: Operand)
      requires currentBlock != null
      modifies this, currentBlock
      ensures r == FreshReg(old(regCounter))
      ensures Emitted(BinaryInstr(t, op1, op2, Bne, old(NameOf(destBlock)), old(regCounter)), 1)
    {
      r := CreateBinaryOp(t, op1, op2, Bne, destBlock);
    }

    method CreateBgt(t: Type, op1: Operand, op2: Operand, destBlock: Block?) returns (r: Operand)
      requires currentBlock != null
      modifies this, currentBlock
      ensures r == FreshReg(old(regCounter))
      ensures Emitted(BinaryInstr(t, op1, op2, Bgt, old(NameOf(destBlock)), old(regCounter)), 1)
    {
      r := CreateBinaryOp(t, op1, op2, Bgt, destBlock);
    }

    method CreateBlt(t: Type, op1: Operand, op2: Operand, destBlock: Block?) returns (r: Operand)
      requires currentBlock != null
      modifies this, currentBlock
      ensures r == FreshReg(old(regCounter))
      ensures Emitted(BinaryInstr(t, op1, op2, Blt, old(NameOf(destBlock)), old(regCounter)), 1)
    {
      r := CreateBinaryOp(t, op1, op2, Blt, destBlock);
    }

    method CreateBge(t: Type, op1: Operand, op2: Operand, destBlock: Block?) returns (r: Operand)
      requires currentBlock != null
      modifies this, currentBlock
      ensures r == FreshReg(old(regCounter))
      ensures Emitted(BinaryInstr(t, op1, op2, Bge, old(NameOf(destBlock)), old(regCounter)), 1)
    {
      r := CreateBinaryOp(t, op1, op2, Bge, destBlock);
    }

    method CreateBle(t: Type, op1: Operand, op2: Operand, destBlock: Block?) returns (r: Operand)
      requires currentBlock != null
      modifies this, currentBlock
      ensures r == FreshReg(old(regCounter))
      ensures Emitted(BinaryInstr(t, op1, op2, Ble, old(NameOf(destBlock)), old(regCounter)), 1)
    {
      r := CreateBinaryOp(t, op1, op2, Ble, destBlock);
    }

    /** `createBr`: a jump to `block`'s lbl; no register is consumed. */
    method CreateBr(block: Block) returns (i: Instruction)
      requires currentBlock != null
      modifies currentBlock
      ensures i == Instruction(Br, Basic(Void), W.None, W.Some(Label(old(block.name))), W.None, W.None)
      ensures Emitted(i, 0)
    {
      i := SetOperand1(NewInstruction(Br), Label(block.name));
      currentBlock.AddInstruction(i);
    }

    /** `createVoidCall`: a call without a dest. */
    method CreateVoidCall(name: string, args: seq<Operand>) returns (i: Instruction)
      requires currentBlock != null
      modifies currentBlock
      ensures i == FunctionCall(Call, Basic(Void), W.None, W.None, W.None, W.None, name, args)
      ensures Emitted(i, 0)
    {
      i := NewFunctionCall(name, args);
      currentBlock.AddInstruction(i);
    }

    /** `createCall`: a typed call whose result lands in the next fresh register. */
    method CreateCall(t: Type, name: string, args: seq<Operand>) returns (r: Operand)
      requires currentBlock != null
      modifies this, currentBlock
      ensures r == FreshReg(old(regCounter))
      ensures Emitted(FunctionCall(Call, t, W.Some(r), W.None, W.None, W.None, name, args), 1)
    {
      var i := SetDataType(NewFunctionCall(name, args), t);
      r := FreshReg(regCounter);
      regCounter := regCounter + 1;
      i := SetDest(i, r);
      currentBlock.AddInstruction(i);
    }

    /** `createRetVoid`: emits opcode Ret (not RetVoid) with a void type and no operand. */
    method CreateRetVoid() returns (i: Instruction)
      requires currentBlock != null
      modifies currentBlock
      ensures i == Instruction(Ret, Basic(Void), W.None, W.None, W.None, W.None)
      ensures Emitted(i, 0)
    {
      i := SetDataType(NewInstruction(Ret), CreateVoidType());
      currentBlock.AddInstruction(i);
    }

    /** `createRet`: returns `op`. */
    method CreateRet(t: Type, op: Operand) returns (i: Instruction)
      requires currentBlock != null
      modifies currentBlock
      ensures i == Instruction(Ret, t, W.None, W.Some(op), W.None, W.None)
      ensures Emitted(i, 0)
    {
      i := SetOperand1(SetDataType(NewInstruction(Ret), t), op);
      currentBlock.AddInstruction(i);
    }
  }
}
