/// `MipsCompiler`: a stack-machine code generator from the AST to MIPS
/// text, the accumulator in `$a0`, the temporary in `$t1`, the stack
/// growing down from `$sp` one 4-byte word at a time.
///
/// `Emit` is the instruction sequence `cgen` writes for a tree; the class
/// writes the text lines exactly as the Ruby methods do and each method's
/// contract ties those lines to `Lines` of the instructions, whose meaning
/// on the machine of module `Mips` is proved here.
module Codegen {
  import opened Text
  import opened Errors
  import opened Nodes
  import opened Mips

  const ACC: Reg := A0
  const TMP: Reg := T1

  function PushCode(reg: Reg): seq<Instr> {
    [Sw(reg, 0, SP), Addiu(SP, SP, -4)]
  }

  function PopCode(): seq<Instr> {
    [Addiu(SP, SP, 4)]
  }

  function LoadStackTopCode(reg: Reg): seq<Instr> {
    [Lw(reg, 4, SP)]
  }

  function AddCode(reg1: Reg, reg2: Reg): seq<Instr> {
    [Add(ACC, reg1, reg2)]
  }

  /** Service 1 of the simulator prints the integer in `$a0`. */
  function PrintCode(): seq<Instr> {
    [Li(V0, 1), Syscall]
  }

  /** Service 10 ends the program. */
  function ExitCode(): seq<Instr> {
    [Li(V0, 10), Syscall]
  }

  function Preamble(): seq<string> {
    [".text", ".globl main", "main:"]
  }

  /** The instructions `cgen` writes for a tree: the left operand into the
      accumulator, pushed; the right operand into the accumulator; the saved
      left operand loaded back into the temporary; added; popped. */
  function Emit(e: Node): seq<Instr> {
    match e
    case NumberNode(n) => [Li(ACC, n)]
    case OpNode(l, r, _) =>
      Emit(l) + PushCode(ACC) + Emit(r) + LoadStackTopCode(TMP) + AddCode(ACC, TMP) + PopCode()
  }

  /** The instructions of a whole compiled program. */
  function Program(e: Node): seq<Instr> {
    Emit(e) + PrintCode() + ExitCode()
  }

  /** One line for a number, five more than the operands' for an operator:
      six lines per number less five. */
  lemma {:induction false} EmitLength(e: Node)
    ensures |Emit(e)| == 6 * |Leaves(e)| - 5
  {
    match e
    case NumberNode(_) =>
    case OpNode(l, r, _) =>
      EmitLength(l);
      EmitLength(r);
  }

  /** The stack words `Emit(e)` needs at most. */
  function Slots(e: Node): nat {
    match e
    case NumberNode(_) => 0
    case OpNode(l, r, _) => if Slots(l) > Slots(r) + 1 then Slots(l) else Slots(r) + 1
  }

  /** The text of a number node's code: one `li` of the number's decimal digits. */
  lemma EmitNumberLines(n: nat)
    ensures Lines(Emit(NumberNode(n))) == ["li " + RegName(ACC) + " " + NatToString(n)]
  {
    LinesOfOne(Li(ACC, n));
  }

  lemma PushText(reg: Reg)
    ensures Lines(PushCode(reg)) ==
      ["sw " + RegName(reg) + " 0(" + RegName(SP) + ")", "addiu " + RegName(SP) + " " + RegName(SP) + " -4"]
  {
    LinesOfTwo(Sw(reg, 0, SP), Addiu(SP, SP, -4));
    assert IntToString(0) == "0" && IntToString(-4) == "-4";
    assert Show(Sw(reg, 0, SP)) == "sw " + RegName(reg) + " 0(" + RegName(SP) + ")";
    assert Show(Addiu(SP, SP, -4)) == "addiu " + RegName(SP) + " " + RegName(SP) + " -4";
  }

  lemma PopText()
    ensures Lines(PopCode()) == ["addiu " + RegName(SP) + " " + RegName(SP) + " 4"]
  {
    LinesOfOne(Addiu(SP, SP, 4));
    assert IntToString(4) == "4";
    assert Show(Addiu(SP, SP, 4)) == "addiu " + RegName(SP) + " " + RegName(SP) + " 4";
  }

  lemma LoadStackTopText(reg: Reg)
    ensures Lines(LoadStackTopCode(reg)) == ["lw " + RegName(reg) + " 4(" + RegName(SP) + ")"]
  {
    LinesOfOne(Lw(reg, 4, SP));
    assert IntToString(4) == "4";
    assert Show(Lw(reg, 4, SP)) == "lw " + RegName(reg) + " 4(" + RegName(SP) + ")";
  }

  lemma AddText(reg1: Reg, reg2: Reg)
    ensures Lines(AddCode(reg1, reg2)) == ["add " + RegName(ACC) + " " + RegName(reg1) + " " + RegName(reg2)]
  {
    LinesOfOne(Instr.Add(ACC, reg1, reg2));
  }

  lemma PrintText()
    ensures Lines(PrintCode()) == ["li $v0 1", "syscall"]
  {
    LinesOfTwo(Li(V0, 1), Syscall);
    assert IntToString(1) == "1";
    assert Show(Li(V0, 1)) == "li $v0 1";
  }

  lemma ExitText()
    ensures Lines(ExitCode()) == ["li $v0 10", "syscall"]
  {
    LinesOfTwo(Li(V0, 10), Syscall);
    assert IntToString(10) == "10";
    assert Show(Li(V0, 10)) == "li $v0 10";
  }

  /** A buffer holding the text of `x` after `b0`, extended by the text of
      `y`, holds the text of `x + y` after `b0`. */
  lemma ExtendLines(b0: seq<string>, x: seq<Instr>, y: seq<Instr>, b: seq<string>)
    requires b == b0 + Lines(x) + Lines(y)
    ensures b == b0 + Lines(x + y)
  {
    LinesAppend(x, y);
  }

  /** What loading back, adding and popping do after the right operand. */
  function TailCode(): seq<Instr> {
    LoadStackTopCode(TMP) + AddCode(ACC, TMP) + PopCode()
  }

  lemma EmitOpSplit(l: Node, r: Node, op: Syntax.Kind)
    ensures Emit(OpNode(l, r, op)) == Emit(l) + (PushCode(ACC) + (Emit(r) + TailCode()))
  {
  }

  lemma ExecPush(m: Machine)
    ensures Exec(PushCode(ACC), m) == m.(mem := m.mem[m.sp := m.a0], sp := m.sp - 4)
  {
    assert PushCode(ACC)[1..] == [Addiu(SP, SP, -4)];
  }

  lemma ExecTail(m: Machine)
    ensures Exec(TailCode(), m) ==
      m.(t1 := Load(m, m.sp + 4), a0 := m.a0 + Load(m, m.sp + 4), sp := m.sp + 4)
  {
    var m1 := Step(m, Lw(TMP, 4, SP));
    assert m1 == m.(t1 := Load(m, m.sp + 4));
    var m2 := Step(m1, Instr.Add(ACC, ACC, TMP));
    assert m2 == m1.(a0 := m.a0 + m1.t1);
    assert Step(m2, Addiu(SP, SP, 4)) == m2.(sp := m.sp + 4);
    ExecOne(Lw(TMP, 4, SP), m);
    ExecOne(Instr.Add(ACC, ACC, TMP), m1);
    ExecOne(Addiu(SP, SP, 4), m2);
    ExecAppend(LoadStackTopCode(TMP), AddCode(ACC, TMP), m);
    ExecAppend(LoadStackTopCode(TMP) + AddCode(ACC, TMP), PopCode(), m);
  }

  /** The code of a tree leaves the tree's sum in the accumulator, gives the
      stack pointer back, leaves `$v0` and the printed output alone, and does
      not touch any word above the stack pointer it started with. */
  lemma {:induction false} EmitComputesSum(e: Node, m: Machine)
    ensures Exec(Emit(e), m).a0 == Sum(e)
    ensures Exec(Emit(e), m).sp == m.sp
    ensures Exec(Emit(e), m).v0 == m.v0 && Exec(Emit(e), m).log == m.log
    ensures forall a :: a > m.sp ==> Load(Exec(Emit(e), m), a) == Load(m, a)
  {
    match e
    case NumberNode(n) =>
      assert Emit(e)[1..] == [];
    case OpNode(l, r, op) =>
      EmitComputesSum(l, m);
      var m1 := Exec(Emit(l), m);
      ExecPush(m1);
      var m2 := Exec(PushCode(ACC), m1);
      EmitComputesSum(r, m2);
      var m3 := Exec(Emit(r), m2);
      assert Load(m3, m3.sp + 4) == Sum(l);
      ExecTail(m3);
      EmitOpSplit(l, r, op);
      ExecAppend(Emit(r), TailCode(), m2);
      ExecAppend(PushCode(ACC), Emit(r) + TailCode(), m1);
      ExecAppend(Emit(l), PushCode(ACC) + (Emit(r) + TailCode()), m);
      forall a | a > m.sp
        ensures Load(Exec(Emit(e), m), a) == Load(m, a)
      {
        assert Load(m2, a) == Load(m1, a);
      }
  }

  lemma {:induction false} EmitSpClean(e: Node)
    ensures SpClean(Emit(e))
  {
    match e
    case NumberNode(_) =>
    case OpNode(l, r, op) =>
      EmitSpClean(l);
      EmitSpClean(r);
      EmitOpSplit(l, r, op);
      SpCleanAppend(Emit(r), TailCode());
      SpCleanAppend(PushCode(ACC), Emit(r) + TailCode());
      SpCleanAppend(Emit(l), PushCode(ACC) + (Emit(r) + TailCode()));
  }

  lemma PushBounded(base: int, lo: int)
    requires lo <= base - 4
    ensures Depth(PushCode(ACC)) == -4
    ensures Bounded(PushCode(ACC), base, lo, base)
  {
    BoundedOne(Sw(ACC, 0, SP), base, lo, base);
    BoundedOne(Addiu(SP, SP, -4), base, lo, base);
    BoundedAppend([Sw(ACC, 0, SP)], [Addiu(SP, SP, -4)], base, lo, base);
    DepthAppend([Sw(ACC, 0, SP)], [Addiu(SP, SP, -4)]);
    assert [Sw(ACC, 0, SP)] + [Addiu(SP, SP, -4)] == PushCode(ACC);
  }

  lemma TailBounded(base: int, lo: int)
    requires lo <= base
    ensures Depth(TailCode()) == 4
    ensures Bounded(TailCode(), base, lo, base + 4)
  {
    var i, j, k := Lw(TMP, 4, SP), Instr.Add(ACC, ACC, TMP), Addiu(SP, SP, 4);
    BoundedOne(i, base, lo, base + 4);
    BoundedOne(j, base, lo, base + 4);
    BoundedOne(k, base, lo, base + 4);
    BoundedAppend([i], [j], base, lo, base + 4);
    DepthAppend([i], [j]);
    assert [i] + [j] == [i, j];
    BoundedAppend([i, j], [k], base, lo, base + 4);
    DepthAppend([i, j], [k]);
    assert [i, j] + [k] == TailCode();
  }

  /** The code of a tree gives back every stack word it takes, and while it
      runs it is never above where it started nor more than `Slots(e)` words
      below. */
  lemma {:induction false} EmitStackBounded(e: Node)
    ensures Depth(Emit(e)) == 0
    ensures Bounded(Emit(e), 0, -4 * Slots(e), 0)
  {
    match e
    case NumberNode(n) =>
      BoundedOne(Li(ACC, n), 0, 0, 0);
      assert Emit(e) == [Li(ACC, n)];
      assert Emit(e)[1..] == [];
    case OpNode(l, r, op) =>
      var lo := -4 * Slots(e);
      EmitStackBounded(l);
      EmitStackBounded(r);
      BoundedWeaken(Emit(l), 0, -4 * Slots(l), 0, lo, 0);
      PushBounded(0, lo);
      BoundedShift(Emit(r), 0, -4 * Slots(r), 0, -4);
      BoundedWeaken(Emit(r), -4, -4 * Slots(r) - 4, -4, lo, 0);
      TailBounded(-4, lo);
      BoundedAppend(Emit(r), TailCode(), -4, lo, 0);
      DepthAppend(Emit(r), TailCode());
      BoundedAppend(PushCode(ACC), Emit(r) + TailCode(), 0, lo, 0);
      DepthAppend(PushCode(ACC), Emit(r) + TailCode());
      BoundedAppend(Emit(l), PushCode(ACC) + (Emit(r) + TailCode()), 0, lo, 0);
      DepthAppend(Emit(l), PushCode(ACC) + (Emit(r) + TailCode()));
      EmitOpSplit(l, r, op);
  }

  /** On the machine: at every point of the code of a tree the stack pointer
      lies between its start and `Slots(e)` words below it. */
  lemma StackWithinSlots(e: Node, m: Machine)
    ensures forall k :: 0 <= k <= |Emit(e)| ==>
      m.sp - 4 * Slots(e) <= Exec(Emit(e)[..k], m).sp <= m.sp
  {
    EmitStackBounded(e);
    EmitSpClean(e);
    forall k | 0 <= k <= |Emit(e)|
      ensures m.sp - 4 * Slots(e) <= Exec(Emit(e)[..k], m).sp <= m.sp
    {
      SpCleanPrefix(Emit(e), k);
      SpFollowsDepth(Emit(e)[..k], m);
    }
  }

  /** A compiled program prints the sum of the tree, then asks to exit, and
      leaves the stack pointer where it found it. */
  lemma ProgramPrintsSum(e: Node, m: Machine)
    ensures Exec(Program(e), m).log == m.log + [Event(1, Sum(e)), Event(10, Sum(e))]
    ensures Exec(Program(e), m).sp == m.sp
  {
    var m1 := Exec(Emit(e), m);
    EmitComputesSum(e, m);
    var m2 := Step(m1, Li(V0, 1));
    var m3 := Step(m2, Syscall);
    var m4 := Step(m3, Li(V0, 10));
    ExecOne(Li(V0, 1), m1);
    ExecOne(Syscall, m2);
    ExecOne(Li(V0, 10), m3);
    ExecOne(Syscall, m4);
    ExecAppend([Li(V0, 1)], [Syscall], m1);
    ExecAppend([Li(V0, 10)], [Syscall], m3);
    assert [Li(V0, 1)] + [Syscall] == PrintCode();
    assert [Li(V0, 10)] + [Syscall] == ExitCode();
    ExecAppend(Emit(e), PrintCode(), m);
    ExecAppend(Emit(e) + PrintCode(), ExitCode(), m);
  }

  class MipsCompiler {
    const ast: Option<Node>
    var buf: seq<string>

    constructor (ast: Option<Node>)
      ensures this.ast == ast && buf == []
    {
      this.ast := ast;
      buf := [];
    }

    /** On a missing tree nothing is written and the compiler's error is
        raised; otherwise the tree's code, then print, then exit. */
    method Compile() returns (o: Outcome)
      modifies this
      ensures ast.None? ==> o == Fail(UnknownNode) && buf == old(buf)
      ensures ast.Some? ==> o == Pass && buf == old(buf) + Lines(Program(ast.value))
    {
      o := Cgen(ast);
      if o.Fail? {
        return;
      }
      Print();
      Exitt();
      LinesAppend(Emit(ast.value), PrintCode());
      LinesAppend(Emit(ast.value) + PrintCode(), ExitCode());
    }

    method Cgen(expr: Option<Node>) returns (o: Outcome)
      modifies this
      ensures expr.None? ==> o == Fail(UnknownNode) && buf == old(buf)
      ensures expr.Some? ==> o == Pass && buf == old(buf) + Lines(Emit(expr.value))
      decreases if expr.Some? then Size(expr.value) else 0
    {
      match expr {
        case None =>
          return Fail(UnknownNode);
        case Some(NumberNode(n)) =>
          buf := buf + ["li " + RegName(ACC) + " " + NatToString(n)];
          EmitNumberLines(n);
        case Some(OpNode(l, r, op)) =>
          ghost var b0 := buf;
          ghost var code := Emit(l);
          o := Cgen(Some(l));
          Push(ACC);
          ExtendLines(b0, code, PushCode(ACC), buf);
          code := code + PushCode(ACC);
          o := Cgen(Some(r));
          ExtendLines(b0, code, Emit(r), buf);
          code := code + Emit(r);
          LoadStackTop(TMP);
          ExtendLines(b0, code, LoadStackTopCode(TMP), buf);
          code := code + LoadStackTopCode(TMP);
          Add(ACC, TMP);
          ExtendLines(b0, code, AddCode(ACC, TMP), buf);
          code := code + AddCode(ACC, TMP);
          Pop();
          ExtendLines(b0, code, PopCode(), buf);
      }
      o := Pass;
    }

    method Push(reg: Reg)
      modifies this
      ensures buf == old(buf) + Lines(PushCode(reg))
    {
      buf := buf + ["sw " + RegName(reg) + " 0(" + RegName(SP) + ")"];
      buf := buf + ["addiu " + RegName(SP) + " " + RegName(SP) + " -4"];
      PushText(reg);
    }

    method Pop()
      modifies this
      ensures buf == old(buf) + Lines(PopCode())
    {
      buf := buf + ["addiu " + RegName(SP) + " " + RegName(SP) + " 4"];
      PopText();
    }

    method LoadStackTop(reg: Reg)
      modifies this
      ensures buf == old(buf) + Lines(LoadStackTopCode(reg))
    {
      buf := buf + ["lw " + RegName(reg) + " 4(" + RegName(SP) + ")"];
      LoadStackTopText(reg);
    }

    method Add(reg1: Reg, reg2: Reg)
      modifies this
      ensures buf == old(buf) + Lines(AddCode(reg1, reg2))
    {
      buf := buf + ["add " + RegName(ACC) + " " + RegName(reg1) + " " + RegName(reg2)];
      AddText(reg1, reg2);
    }

    method Print()
      modifies this
      ensures buf == old(buf) + Lines(PrintCode())
    {
      buf := buf + ["li $v0 1"];
      buf := buf + ["syscall"];
      PrintText();
    }

    method Exitt()
      modifies this
      ensures buf == old(buf) + Lines(ExitCode())
    {
      buf := buf + ["li $v0 10"];
      buf := buf + ["syscall"];
      ExitText();
    }

    /** Puts the preamble in front of the buffer, keeps it, and returns it. */
    method Output() returns (lines: seq<string>)
      modifies this
      ensures buf == Preamble() + old(buf) && lines == buf
    {
      buf := Preamble() + buf;
      lines := buf;
    }
  }
}
