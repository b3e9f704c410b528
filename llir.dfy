/** The IR containers of llir.cpp: a block owns an ordered instruction list, a
    function owns an ordered block list and its arguments, a module owns its
    functions and its global strings. These are objects the builder and the
    lowering pass update in place. */
module Llir {
  import W = Wrappers
  import opened Strings
  import opened Operands
  import opened Types
  import opened Instructions

  class Block {
    var name: string
    var instrs: seq<Instruction>
    var id: int

    /** `Block(name)`: empty, with id 0 until a function adopts it. */
    constructor (name: string)
      ensures this.name == name && instrs == [] && id == 0
    {
      this.name := name;
      instrs := [];
      id := 0;
    }

    /** `Block::addInstruction`: appends one instruction, leaving earlier ones untouched. */
    method AddInstruction(i: Instruction)
      modifies this
      ensures instrs == old(instrs) + [i]
      ensures name == old(name) && id == old(id)
    {
      instrs := instrs + [i];
    }

    method SetID(id: int)
      modifies this`id
      ensures this.id == id
      ensures name == old(name) && instrs == old(instrs)
    {
      this.id := id;
    }

    /** `Block::getInstruction`: `.at` throws outside the list, so callers stay inside it. */
    function GetInstruction(pos: int): (i: Instruction)
      reads this
      requires 0 <= pos < |instrs|
      ensures i in instrs && i == instrs[pos]
    {
      instrs[pos]
    }
  }

  /** The register names "0", "1", ..., "n-1" that `Function::setArgs` creates. */
  function ArgNames(n: nat): (names: seq<string>)
    ensures |names| == n
    ensures forall i :: 0 <= i < n ==> names[i] == NatToString(i)
  {
    if n == 0 then [] else ArgNames(n - 1) + [NatToString(n - 1)]
  }

  /** The first position of `id` in `ids`, or -1 when it does not occur. */
  function IndexOf(ids: seq<int>, id: int): (p: int)
    ensures -1 <= p < |ids|
    ensures p >= 0 ==> ids[p] == id && forall i :: 0 <= i < p ==> ids[i] != id
    ensures p == -1 <==> forall i :: 0 <= i < |ids| ==> ids[i] != id
  {
    if ids == [] then -1
    else if ids[0] == id then 0
    else
      var p := IndexOf(ids[1..], id);
      if p == -1 then -1 else p + 1
  }

  /** In a list of distinct ids below `bound`, an id that occurs is below
      `bound` and occurs nowhere after its first position. */
  lemma MatchIsLast(ids: seq<int>, bound: int, id: int)
    requires UniqueBelow(ids, bound)
    ensures var p := IndexOf(ids, id);
      p >= 0 ==> id < bound && forall j :: p < j < |ids| ==> ids[j] != id
  {
  }

  /** The ids of `bs`, in block order. */
  function Ids(bs: seq<Block>): (r: seq<int>)
    reads bs
    ensures |r| == |bs| && forall k :: 0 <= k < |bs| ==> r[k] == bs[k].id
  {
    seq(|bs|, k requires 0 <= k < |bs| reads bs => bs[k].id)
  }

  /** Distinct ids, each at least 1 and below `bound`. */
  predicate UniqueBelow(ids: seq<int>, bound: int) {
    (forall k :: 0 <= k < |ids| ==> 1 <= ids[k] < bound) &&
    (forall j, k :: 0 <= j < k < |ids| ==> ids[j] != ids[k])
  }

  /** Where everything lands when `x` is inserted after position `i`. */
  lemma Splice<T>(s: seq<T>, i: nat, x: T)
    requires i < |s|
    ensures var r := s[..i + 1] + [x] + s[i + 1..];
      |r| == |s| + 1 && forall k :: 0 <= k < |r| ==> r[k] == if k <= i then s[k] else if k == i + 1 then x else s[k - 1]
  {
  }

  /** Appending the bound keeps the ids unique below the next bound. */
  lemma AppendFresh(ids: seq<int>, bound: int)
    requires UniqueBelow(ids, bound) && bound >= 1
    ensures UniqueBelow(ids + [bound], bound + 1)
  {
  }

  /** So does inserting it anywhere. */
  /** The ids `addBlockAfter` leaves: unchanged without a match, the counter
      inserted after the match otherwise; either way distinct and below the
      counter as it then stands. */
  lemma InsertAfterIds(ids: seq<int>, ids1: seq<int>, bound: int, p: int)
    requires UniqueBelow(ids, bound) && bound >= 1 && -1 <= p < |ids|
    requires p == -1 ==> ids1 == ids
    requires p >= 0 ==> ids1 == ids[..p + 1] + [bound] + ids[p + 1..]
    ensures UniqueBelow(ids1, if p == -1 then bound else bound + 1)
  {
    if p >= 0 {
      InsertFresh(ids, bound, p);
    }
  }

  lemma InsertFresh(ids: seq<int>, bound: int, i: nat)
    requires UniqueBelow(ids, bound) && bound >= 1 && i < |ids|
    ensures UniqueBelow(ids[..i + 1] + [bound] + ids[i + 1..], bound + 1)
  {
    Splice(ids, i, bound);
  }

  /** The instruction lists of `bs`, in block order. */
  function InstrLists(bs: seq<Block>): (r: seq<seq<Instruction>>)
    reads set b | b in bs
    ensures |r| == |bs| && forall i :: 0 <= i < |bs| ==> r[i] == bs[i].instrs
  {
    seq(|bs|, i requires 0 <= i < |bs| reads bs => bs[i].instrs)
  }

  /** A block as the assembly writer sees it. */
  datatype BlockView = BlockView(name: string, instrs: seq<Instruction>)

  /** A function as the assembly writer sees it. */
  datatype FunctionView = FunctionView(name: string, linkage: Linkage, stackSize: nat, blocks: seq<BlockView>)

  function BlockViews(bs: seq<Block>): (r: seq<BlockView>)
    reads bs
    ensures |r| == |bs|
    ensures forall i :: 0 <= i < |bs| ==> r[i] == BlockView(bs[i].name, bs[i].instrs)
  {
    seq(|bs|, i requires 0 <= i < |bs| reads bs => BlockView(bs[i].name, bs[i].instrs))
  }

  class Function {
    var name: string
    var linkage: Linkage
    var dataType: Type
    var blocks: seq<Block>
    var args: seq<Type>          // argument types
    var varRegs: seq<string>     // names of the argument registers
    var blockID: int             // the id the next adopted block receives
    /** `getStackSize()`: amd64.cpp reads it, but nothing in the shown code
        declares or sets it, so it is left as an arbitrary natural number. */
    var stackSize: nat

    /** Every argument type has its register; block ids are distinct and below the counter. */
    ghost predicate Valid()
      reads this, blocks
    {
      |args| <= |varRegs| && blockID >= 1 && UniqueBelow(Ids(blocks), blockID)
    }

    /** `Function(name, linkage)`: the given linkage, no blocks, void, `blockID` starting at 1. */
    constructor (name: string, linkage: Linkage)
      ensures Valid()
      ensures this.name == name && this.linkage == linkage && dataType == Basic(Void)
      ensures blocks == [] && args == [] && varRegs == [] && blockID == 1
    {
      this.name := name;
      this.linkage := linkage;
      dataType := Basic(Void);
      blocks := [];
      args := [];
      varRegs := [];
      blockID := 1;
    }

    /** `Function::Create(name, linkage, dataType)`. */
    constructor Create(name: string, linkage: Linkage, dataType: Type)
      ensures Valid()
      ensures this.name == name && this.linkage == linkage && this.dataType == dataType
      ensures blocks == [] && args == [] && varRegs == [] && blockID == 1
    {
      this.name := name;
      this.linkage := linkage;
      this.dataType := dataType;
      blocks := [];
      args := [];
      varRegs := [];
      blockID := 1;
    }

    method SetDataType(d: Type)
      modifies this
      ensures dataType == d
      ensures name == old(name) && linkage == old(linkage) && blocks == old(blocks)
      ensures args == old(args) && varRegs == old(varRegs) && blockID == old(blockID)
    {
      dataType := d;
    }

    /** `Function::setArgs`: replaces the argument types and appends one register
        per type, named by its position. */
    method SetArgs(ts: seq<Type>)
      modifies this
      ensures args == ts && varRegs == old(varRegs) + ArgNames(|ts|)
      ensures name == old(name) && linkage == old(linkage) && dataType == old(dataType)
      ensures blocks == old(blocks) && blockID == old(blockID)
      ensures old(Valid()) ==> Valid()
    {
      args := ts;
      for i := 0 to |ts|
        invariant args == ts && varRegs == old(varRegs) + ArgNames(i)
        invariant name == old(name) && linkage == old(linkage) && dataType == old(dataType)
        invariant blocks == old(blocks) && blockID == old(blockID)
      {
        varRegs := varRegs + [NatToString(i)];
      }
    }

    /** `Function::addArgPair`: the type and the register go in together. */
    method AddArgPair(t: Type, regName: string)
      modifies this
      ensures args == old(args) + [t] && varRegs == old(varRegs) + [regName]
      ensures name == old(name) && linkage == old(linkage) && dataType == old(dataType)
      ensures blocks == old(blocks) && blockID == old(blockID)
      ensures old(Valid()) ==> Valid()
    {
      args := args + [t];
      varRegs := varRegs + [regName];
    }

    /** `Function::getArg`. */
    function GetArg(pos: int): (r: Operand)
      reads this
      requires 0 <= pos < |varRegs|
      ensures r.Reg? && r.name == varRegs[pos]
    {
      Reg(varRegs[pos])
    }

    /** `Function::getArgType`. */
    function GetArgType(pos: int): (t: Type)
      reads this
      requires 0 <= pos < |args|
      ensures t == args[pos]
    {
      args[pos]
    }

    /** `Function::addBlock`: appends the block, gives it the current counter, bumps the counter. */
    method AddBlock(block: Block)
      modifies this`blocks, this`blockID, block`id
      ensures blocks == old(blocks) + [block]
      ensures block.id == old(blockID) && blockID == old(blockID) + 1
      ensures block.name == old(block.name) && block.instrs == old(block.instrs)
      ensures name == old(name) && linkage == old(linkage) && dataType == old(dataType)
      ensures args == old(args) && varRegs == old(varRegs)
      ensures old(Valid()) && block !in old(blocks) ==> Valid()
    {
      ghost var ids := Ids(blocks);
      block.SetID(blockID);
      blockID := blockID + 1;
      blocks := blocks + [block];
      if old(Valid()) && block !in old(blocks) {
        assert Ids(blocks) == ids + [old(blockID)];
        AppendFresh(ids, old(blockID));
      }
    }

    /** The splice `addBlockAfter` performs on a match: `newBlock` goes in at
        position `i + 1` and takes the counter, which is then bumped. */
    method InsertAfter(i: nat, newBlock: Block)
      requires i < |blocks| && newBlock !in blocks
      modifies this`blocks, this`blockID, newBlock`id
      ensures blocks == old(blocks)[..i + 1] + [newBlock] + old(blocks)[i + 1..]
      ensures Ids(blocks) == old(Ids(blocks))[..i + 1] + [old(blockID)] + old(Ids(blocks))[i + 1..]
      ensures newBlock.id == old(blockID) && blockID == old(blockID) + 1
      ensures old(Valid()) ==> Valid()
    {
      ghost var ob := blocks;
      ghost var ids := Ids(blocks);
      newBlock.SetID(blockID);
      blockID := blockID + 1;
      blocks := blocks[..i + 1] + [newBlock] + blocks[i + 1..];
      Splice(ob, i, newBlock);
      Splice(ids, i, old(blockID));
      assert Ids(blocks) == ids[..i + 1] + [old(blockID)] + ids[i + 1..];
      if old(Valid()) {
        InsertFresh(ids, old(blockID), i);
      }
    }

    /** `Function::addBlockAfter`: when a block carries `block`'s id, `newBlock`
        goes right after it with a fresh id; otherwise nothing changes. */
    method AddBlockAfter(block: Block, newBlock: Block)
      requires Valid()
      requires IndexOf(Ids(blocks), block.id) >= 0 ==> newBlock !in blocks && newBlock != block
      modifies this`blocks, this`blockID, newBlock`id
      ensures Valid()
      ensures var p := IndexOf(old(Ids(blocks)), block.id);
        if p == -1 then
          blocks == old(blocks) && blockID == old(blockID) && newBlock.id == old(newBlock.id)
        else
          blocks == old(blocks)[..p + 1] + [newBlock] + old(blocks)[p + 1..] &&
          newBlock.id == old(blockID) && blockID == old(blockID) + 1
    {
      ghost var ids0 := Ids(blocks);
      ghost var p := IndexOf(ids0, block.id);
      MatchIsLast(ids0, blockID, block.id);
      ScanAndInsert(block, newBlock);
      InsertAfterIds(ids0, Ids(blocks), old(blockID), p);
    }

    /** The loop of `addBlockAfter`, which runs over every block and does not
        stop at a match. When a match is the last block with its id and that
        id is below the counter, neither `newBlock` nor a later block matches
        again, so exactly one insertion happens. */
    method ScanAndInsert(block: Block, newBlock: Block)
      requires var ids := Ids(blocks); var p := IndexOf(ids, block.id);
        p >= 0 ==>
          newBlock !in blocks && newBlock != block &&
          block.id < blockID && forall j :: p < j < |ids| ==> ids[j] != block.id
      modifies this`blocks, this`blockID, newBlock`id
      ensures var ids := old(Ids(blocks)); var p := IndexOf(ids, block.id);
        if p == -1 then
          blocks == old(blocks) && blockID == old(blockID) && newBlock.id == old(newBlock.id) &&
          Ids(blocks) == ids
        else
          blocks == old(blocks)[..p + 1] + [newBlock] + old(blocks)[p + 1..] &&
          Ids(blocks) == ids[..p + 1] + [old(blockID)] + ids[p + 1..] &&
          newBlock.id == old(blockID) && blockID == old(blockID) + 1
    {
      ghost var ob := blocks;
      ghost var ids0 := Ids(blocks);
      ghost var p := IndexOf(ids0, block.id);
      // where blocks and ids end up on a match
      ghost var nb := ob;
      ghost var nids := ids0;
      if p >= 0 {
        nb := ob[..p + 1] + [newBlock] + ob[p + 1..];
        nids := ids0[..p + 1] + [blockID] + ids0[p + 1..];
        Splice(ids0, p, blockID);
        assert forall j :: p < j < |nids| ==> nids[j] != block.id;
      }
      ghost var inserted := false;
      var i := 0;
      while i < |blocks|
        invariant 0 <= i <= |blocks| && block.id == old(block.id)
        invariant !inserted ==>
          blocks == ob && Ids(blocks) == ids0 && blockID == old(blockID) &&
          newBlock.id == old(newBlock.id) && (p == -1 || i <= p)
        invariant inserted ==>
          0 <= p < i && blocks == nb && Ids(blocks) == nids &&
          newBlock.id == old(blockID) && blockID == old(blockID) + 1
        decreases |blocks| - i + (if inserted then 0 else 1)
      {
        if block.id == blocks[i].id {
          assert !inserted && i == p;
          InsertAfter(i, newBlock);
          inserted := true;
        }
        i := i + 1;
      }
      assert ids0 == old(Ids(blocks)) && ob == old(blocks);
      assert !inserted ==> p == -1;
    }

    /** The arguments' register names, as the lowering pass reads them. */
    function ArgRegNames(): (names: seq<string>)
      reads this
      requires |args| <= |varRegs|
      ensures |names| == |args|
    {
      varRegs[..|args|]
    }

    function View(): FunctionView
      reads this, blocks
    {
      FunctionView(name, linkage, stackSize, BlockViews(blocks))
    }
  }

  /** The nested views of `fs`, in order. */
  function FunctionViews(fs: seq<Function>): (r: seq<FunctionView>)
    reads (set f | f in fs), (set f, b | f in fs && b in f.blocks :: b)
    ensures |r| == |fs| && forall k :: 0 <= k < |fs| ==> r[k] == fs[k].View()
  {
    if fs == [] then []
    else
      var f := fs[|fs| - 1];
      assert f in fs;
      assert forall j :: 0 <= j < |f.blocks| ==> f.blocks[j] in f.blocks;
      FunctionViews(fs[..|fs| - 1]) + [FunctionView(f.name, f.linkage, f.stackSize, BlockViews(f.blocks))]
  }

  /** The blocks of `bs` are pairwise distinct objects. */
  predicate BlocksDistinct(bs: seq<Block>) {
    forall j, k :: 0 <= j < k < |bs| ==> bs[j] != bs[k]
  }

  /** No block of `g` is one of `f`'s. */
  ghost predicate SharesNoBlock(f: Function, g: Function)
    reads f, g
  {
    forall j :: 0 <= j < |g.blocks| ==> g.blocks[j] !in f.blocks
  }

  /** No block appears twice across the functions `fs`. */
  ghost predicate Apart(fs: seq<Function>)
    reads fs
  {
    (forall k :: 0 <= k < |fs| ==> BlocksDistinct(fs[k].blocks)) &&
    (forall k1, k2 :: 0 <= k1 < |fs| && 0 <= k2 < |fs| && k1 != k2 ==> SharesNoBlock(fs[k1], fs[k2]))
  }

  /** `StringPtr *`: the only operand kind a module's string list holds. */
  type StringConst = o: Operand | o.StringPtr? witness StringPtr("", "")

  class Module {
    var name: string
    var functions: seq<Function>
    var strings: seq<StringConst>

    constructor (name: string)
      ensures this.name == name && functions == [] && strings == []
    {
      this.name := name;
      functions := [];
      strings := [];
    }

    method AddFunction(f: Function)
      modifies this
      ensures functions == old(functions) + [f] && strings == old(strings) && name == old(name)
    {
      functions := functions + [f];
    }

    method AddStringPtr(p: StringConst)
      modifies this
      ensures strings == old(strings) + [p] && functions == old(functions) && name == old(name)
    {
      strings := strings + [p];
    }

    /** `Module::getFunctionByName`: the first function with that name, or null when none has it. */
    method GetFunctionByName(fname: string) returns (r: Function?)
      ensures r == null <==> forall k :: 0 <= k < |functions| ==> functions[k].name != fname
      ensures r != null ==>
        exists k :: 0 <= k < |functions| && functions[k] == r && r.name == fname &&
          forall j :: 0 <= j < k ==> functions[j].name != fname
    {
      var k := 0;
      while k < |functions|
        invariant 0 <= k <= |functions|
        invariant forall j :: 0 <= j < k ==> functions[j].name != fname
      {
        if functions[k].name == fname {
          return functions[k];
        }
        k := k + 1;
      }
      return null;
    }

    /** Ownership is a tree: no block belongs to two places in the module. */
    ghost predicate Tree()
      reads this, functions
    {
      Apart(functions)
    }

    ghost function AllBlocks(): set<Block>
      reads this, functions
    {
      set k, j | 0 <= k < |functions| && 0 <= j < |functions[k].blocks| :: functions[k].blocks[j]
    }

    function Views(): (r: seq<FunctionView>)
      reads this, functions, (set f, b | f in functions && b in f.blocks :: b)
      ensures |r| == |functions| && forall k :: 0 <= k < |functions| ==> r[k] == functions[k].View()
    {
      FunctionViews(functions)
    }
  }
}
