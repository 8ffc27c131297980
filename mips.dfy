/// The target: the MIPS instructions the code generator writes, their text,
/// and an abstract register-and-word-memory machine that runs them.
///
/// Only `li`, `sw`, `lw`, `addiu`, `add` and `syscall` occur.  Registers and
/// memory words hold unbounded integers; a `syscall` only records the
/// service number in `$v0` and the argument in `$a0`.
module Mips {
  import opened Text

  datatype Reg = A0 | T1 | SP | V0

  function RegName(r: Reg): string {
    match r
    case A0 => "$a0"
    case T1 => "$t1"
    case SP => "$sp"
    case V0 => "$v0"
  }

  datatype Instr =
    | Li(rd: Reg, imm: int)
    | Sw(rs: Reg, off: int, base: Reg)
    | Lw(rd: Reg, off: int, base: Reg)
    | Addiu(rd: Reg, rs: Reg, imm: int)
    | Add(rd: Reg, rs: Reg, rt: Reg)
    | Syscall

  /** The text line of an instruction, spaces between the operands as the
      code generator writes them (`sw $a0 0($sp)`). */
  function Show(i: Instr): string {
    match i
    case Li(rd, imm) => "li " + RegName(rd) + " " + IntToString(imm)
    case Sw(rs, off, base) => "sw " + RegName(rs) + " " + IntToString(off) + "(" + RegName(base) + ")"
    case Lw(rd, off, base) => "lw " + RegName(rd) + " " + IntToString(off) + "(" + RegName(base) + ")"
    case Addiu(rd, rs, imm) => "addiu " + RegName(rd) + " " + RegName(rs) + " " + IntToString(imm)
    case Add(rd, rs, rt) => "add " + RegName(rd) + " " + RegName(rs) + " " + RegName(rt)
    case Syscall => "syscall"
  }

  /** The text of a piece of code, one line per instruction. */
  function Lines(code: seq<Instr>): seq<string>
    decreases |code|
  {
    if code == [] then [] else [Show(code[0])] + Lines(code[1..])
  }

  lemma {:induction false} LinesAppend(a: seq<Instr>, b: seq<Instr>)
    ensures Lines(a + b) == Lines(a) + Lines(b)
    decreases |a|
  {
    if a != [] {
      assert (a + b)[1..] == a[1..] + b;
      LinesAppend(a[1..], b);
    } else {
      assert a + b == b;
    }
  }

  lemma LinesOfOne(i: Instr)
    ensures Lines([i]) == [Show(i)]
  {
  }

  lemma LinesOfTwo(i: Instr, j: Instr)
    ensures Lines([i, j]) == [Show(i), Show(j)]
  {
    assert [i, j][1..] == [j];
    LinesOfOne(j);
  }

  /** A `syscall` as the machine sees it: the service in `$v0`, the argument in `$a0`. */
  datatype Event = Event(service: int, arg: int)

  datatype Machine = Machine(a0: int, t1: int, v0: int, sp: int, mem: map<int, int>, log: seq<Event>)

  function Get(m: Machine, r: Reg): int {
    match r
    case A0 => m.a0
    case T1 => m.t1
    case SP => m.sp
    case V0 => m.v0
  }

  function Set(m: Machine, r: Reg, v: int): Machine {
    match r
    case A0 => m.(a0 := v)
    case T1 => m.(t1 := v)
    case SP => m.(sp := v)
    case V0 => m.(v0 := v)
  }

  /** The word at an address; words never written read as 0. */
  function Load(m: Machine, addr: int): int {
    if addr in m.mem then m.mem[addr] else 0
  }

  function Step(m: Machine, i: Instr): Machine {
    match i
    case Li(rd, imm) => Set(m, rd, imm)
    case Sw(rs, off, base) => m.(mem := m.mem[Get(m, base) + off := Get(m, rs)])
    case Lw(rd, off, base) => Set(m, rd, Load(m, Get(m, base) + off))
    case Addiu(rd, rs, imm) => Set(m, rd, Get(m, rs) + imm)
    case Add(rd, rs, rt) => Set(m, rd, Get(m, rs) + Get(m, rt))
    case Syscall => m.(log := m.log + [Event(m.v0, m.a0)])
  }

  /** Straight-line execution, first instruction first. */
  function Exec(code: seq<Instr>, m: Machine): Machine
    decreases |code|
  {
    if code == [] then m else Exec(code[1..], Step(m, code[0]))
  }

  lemma ExecOne(i: Instr, m: Machine)
    ensures Exec([i], m) == Step(m, i)
  {
    assert [i][1..] == [];
  }

  lemma {:induction false} ExecAppend(a: seq<Instr>, b: seq<Instr>, m: Machine)
    ensures Exec(a + b, m) == Exec(b, Exec(a, m))
    decreases |a|
  {
    if a != [] {
      assert (a + b)[1..] == a[1..] + b;
      ExecAppend(a[1..], b, Step(m, a[0]));
    } else {
      assert a + b == b;
    }
  }

  /** How far an instruction moves the stack pointer. */
  function SpShift(i: Instr): int {
    if i.Addiu? && i.rd == SP && i.rs == SP then i.imm else 0
  }

  /** The net `$sp` adjustment of a piece of code. */
  function Depth(code: seq<Instr>): int
    decreases |code|
  {
    if code == [] then 0 else SpShift(code[0]) + Depth(code[1..])
  }

  lemma {:induction false} DepthAppend(a: seq<Instr>, b: seq<Instr>)
    ensures Depth(a + b) == Depth(a) + Depth(b)
    decreases |a|
  {
    if a != [] {
      assert (a + b)[1..] == a[1..] + b;
      DepthAppend(a[1..], b);
    } else {
      assert a + b == b;
    }
  }

  /** Code that changes `$sp` only by `addiu $sp $sp k`. */
  predicate SpClean(code: seq<Instr>) {
    forall k :: 0 <= k < |code| ==>
      match code[k]
      case Li(rd, _) => rd != SP
      case Lw(rd, _, _) => rd != SP
      case Add(rd, _, _) => rd != SP
      case Addiu(rd, rs, _) => rd == SP ==> rs == SP
      case _ => true
  }

  /** On such code the machine's stack pointer follows `Depth`. */
  lemma {:induction false} SpFollowsDepth(code: seq<Instr>, m: Machine)
    requires SpClean(code)
    ensures Exec(code, m).sp == m.sp + Depth(code)
    decreases |code|
  {
    if code != [] {
      assert SpClean(code[1..]) by {
        forall k | 0 <= k < |code[1..]| ensures code[1..][k] == code[k + 1] {
        }
      }
      SpFollowsDepth(code[1..], Step(m, code[0]));
    }
  }

  /** Every prefix of `code`, started at depth `base`, stays within [lo, hi]. */
  ghost predicate Bounded(code: seq<Instr>, base: int, lo: int, hi: int) {
    forall k :: 0 <= k <= |code| ==> lo <= base + Depth(code[..k]) <= hi
  }

  lemma BoundedAppend(a: seq<Instr>, b: seq<Instr>, base: int, lo: int, hi: int)
    requires Bounded(a, base, lo, hi) && Bounded(b, base + Depth(a), lo, hi)
    ensures Bounded(a + b, base, lo, hi)
  {
    forall k | 0 <= k <= |a + b|
      ensures lo <= base + Depth((a + b)[..k]) <= hi
    {
      if k <= |a| {
        assert (a + b)[..k] == a[..k];
      } else {
        assert (a + b)[..k] == a + b[..k - |a|];
        DepthAppend(a, b[..k - |a|]);
      }
    }
  }

  lemma BoundedOne(i: Instr, base: int, lo: int, hi: int)
    requires lo <= base <= hi && lo <= base + SpShift(i) <= hi
    ensures Depth([i]) == SpShift(i)
    ensures Bounded([i], base, lo, hi)
  {
    assert [i][..0] == [] && [i][..1] == [i];
    assert [i][1..] == [];
  }

  lemma BoundedWeaken(code: seq<Instr>, base: int, lo: int, hi: int, lo': int, hi': int)
    requires Bounded(code, base, lo, hi) && lo' <= lo && hi <= hi'
    ensures Bounded(code, base, lo', hi')
  {
  }

  lemma BoundedShift(code: seq<Instr>, base: int, lo: int, hi: int, d: int)
    requires Bounded(code, base, lo, hi)
    ensures Bounded(code, base + d, lo + d, hi + d)
  {
  }

  lemma SpCleanAppend(a: seq<Instr>, b: seq<Instr>)
    requires SpClean(a) && SpClean(b)
    ensures SpClean(a + b)
  {
    forall k | 0 <= k < |a + b|
      ensures (a + b)[k] == if k < |a| then a[k] else b[k - |a|]
    {
    }
  }

  lemma SpCleanPrefix(code: seq<Instr>, n: nat)
    requires SpClean(code) && n <= |code|
    ensures SpClean(code[..n])
  {
    forall k | 0 <= k < n
      ensures code[..n][k] == code[k]
    {
    }
  }
}
