/** The operand kind tags (`OpType`). Kept apart from `Operands` because the
    tag names are the same words as the operand constructors. */
module OperandTags {

  datatype OpType = None | Imm | Reg | Label | String | Mem | HReg | AReg | PReg
}

/** LLIR operands as one tagged value, copied by value. The first four kinds
    are built by the IR builder; Mem, HReg, AReg and PReg are produced only by
    the lowering pass. */
module Operands {
  import Ints
  import T = OperandTags

  datatype Operand =
    | Imm(value: Ints.int64)              // immediate constant
    | Reg(name: string)                   // virtual register
    | Label(name: string)                 // reference to a block by name
    | StringPtr(name: string, val: string) // global string: its label and its text
    | Mem(name: string)                   // stack slot of an alloca
    | HReg(num: int)                      // general hardware register
    | AReg(num: int)                      // argument register
    | PReg(num: int)                      // pointer register
  {
    /** `Operand::getType`: the tag each constructor fixes. No operand is
        tagged None, and the tag tells the kind of operand apart. */
    function GetType(): (t: T.OpType)
      ensures t != T.None
      ensures (t == T.Imm) == Imm? && (t == T.Reg) == Reg? && (t == T.Label) == Label?
      ensures (t == T.String) == StringPtr? && (t == T.Mem) == Mem?
      ensures (t == T.HReg) == HReg? && (t == T.AReg) == AReg? && (t == T.PReg) == PReg?
    {
      match this
      case Imm(_) => T.Imm
      case Reg(_) => T.Reg
      case Label(_) => T.Label
      case StringPtr(_, _) => T.String
      case Mem(_) => T.Mem
      case HReg(_) => T.HReg
      case AReg(_) => T.AReg
      case PReg(_) => T.PReg
    }

    /** The kinds only the lowering pass creates. */
    predicate IsHardware() {
      Mem? || HReg? || AReg? || PReg?
    }
  }

  /** Each constructor records its own tag, and the tag determines the kind. */
  lemma ConstructorTags(v: Ints.int64, n: string, s: string, k: int)
    ensures Imm(v).GetType() == T.Imm && Reg(n).GetType() == T.Reg
    ensures Label(n).GetType() == T.Label && StringPtr(n, s).GetType() == T.String
    ensures Mem(n).GetType() == T.Mem && HReg(k).GetType() == T.HReg
    ensures AReg(k).GetType() == T.AReg && PReg(k).GetType() == T.PReg
    ensures forall o: Operand :: o.GetType() == T.Reg <==> o.Reg?
    ensures forall o: Operand :: o.GetType() == T.Imm <==> o.Imm?
  {
  }

  /** `Imm::setValue`: the only mutator of an operand. */
  function SetValue(o: Operand, v: Ints.int64): (r: Operand)
    requires o.Imm?
    ensures r.GetType() == T.Imm && r.value == v
  {
    o.(value := v)
  }

  /** The getters return exactly what the constructors were given. */
  lemma GettersReturnConstructorArguments(v: Ints.int64, n: string, s: string, k: int)
    ensures Imm(v).value == v
    ensures Reg(n).name == n && Label(n).name == n && Mem(n).name == n
    ensures StringPtr(n, s).name == n && StringPtr(n, s).val == s
    ensures HReg(k).num == k && AReg(k).num == k && PReg(k).num == k
  {
  }
}
