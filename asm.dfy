/**
 * The RISC-V back end: a simplification pass over the IR (`loadIR`), a greedy
 * register allocator over `t0..t6` with eviction of dead registers
 * (`VariableToRegister`), and one assembly line per instruction (`run`).
 */
module AsmGeneration {
  import opened Results
  import opened IRCode

  // ---------------------------------------------------------------------
  // Registers and the register map.
  // ---------------------------------------------------------------------

  datatype Register = T0 | T1 | T2 | T3 | T4 | T5 | T6

  /** `Register.values()`, in declaration order. */
  const Registers: seq<Register> := [T0, T1, T2, T3, T4, T5, T6]

  lemma RegistersEnumerate()
    ensures forall r: Register :: r in Registers
    ensures forall i, j :: 0 <= i < j < |Registers| ==> Registers[i] != Registers[j]
  {
    forall r: Register
      ensures r in Registers
    {
      match r
      case T0 => assert Registers[0] == r;
      case T1 => assert Registers[1] == r;
      case T2 => assert Registers[2] == r;
      case T3 => assert Registers[3] == r;
      case T4 => assert Registers[4] == r;
      case T5 => assert Registers[5] == r;
      case T6 => assert Registers[6] == r;
    }
  }

  /**
   * A bidirectional map between values and registers: `fwd` is the key side,
   * `bwd` the value side.
   */
  datatype BMap = BMap(fwd: map<IRValue, Register>, bwd: map<Register, IRValue>)
  {
    /** The two sides are inverse to each other. */
    ghost predicate Valid()
    {
      && (forall k :: k in fwd ==> fwd[k] in bwd && bwd[fwd[k]] == k)
      && (forall r :: r in bwd ==> bwd[r] in fwd && fwd[bwd[r]] == r)
    }

    predicate ContainsKey(k: IRValue) { k in fwd }

    predicate ContainsValue(r: Register) { r in bwd }

    /** `getByKey`: null for a value that holds no register. */
    function GetByKey(k: IRValue): (r: Option<Register>)
      ensures r.Some? <==> ContainsKey(k)
      ensures r.Some? ==> fwd[k] == r.value
    {
      if k in fwd then Some(fwd[k]) else None
    }

    /** `replace(k, r)`: the previous holder of `r` and the previous register of `k` are dropped, then `k` holds `r`. */
    function Replace(k: IRValue, r: Register): (m': BMap)
      ensures k in m'.fwd && m'.fwd[k] == r && r in m'.bwd && m'.bwd[r] == k
      ensures m'.fwd.Keys <= fwd.Keys + {k} && m'.bwd.Keys <= bwd.Keys + {r}
    {
      var fwd1 := if r in bwd then fwd - {bwd[r]} else fwd;
      var bwd1 := if k in fwd then bwd - {fwd[k]} else bwd;
      BMap(fwd1[k := r], bwd1[r := k])
    }
  }

  const EmptyBMap := BMap(map[], map[])

  /** No two values ever hold the same register. */
  lemma ValidInjective(m: BMap, k1: IRValue, k2: IRValue)
    requires m.Valid() && k1 in m.fwd && k2 in m.fwd && m.fwd[k1] == m.fwd[k2]
    ensures k1 == k2
  {
    assert m.bwd[m.fwd[k1]] == k1;
  }

  /**
   * Replacing keeps the map a bijection, makes `k` hold `r`, and changes no
   * other pair than the ones holding `k` or `r`.
   */
  lemma ReplaceSpec(m: BMap, k: IRValue, r: Register)
    requires m.Valid()
    ensures var m' := m.Replace(k, r);
      && m'.Valid()
      && m'.GetByKey(k) == Some(r) && r in m'.bwd && m'.bwd[r] == k
      && (forall k' :: k' != k ==> (k' in m'.fwd <==> k' in m.fwd && m.fwd[k'] != r))
      && (forall k' :: k' != k && k' in m'.fwd ==> m'.fwd[k'] == m.fwd[k'])
      && (forall r' :: r' != r ==> (r' in m'.bwd <==> r' in m.bwd && m.bwd[r'] != k))
  {
    var m' := m.Replace(k, r);
    forall k' | k' in m'.fwd
      ensures m'.fwd[k'] in m'.bwd && m'.bwd[m'.fwd[k']] == k'
    {
      if k' != k {
        assert m.bwd[m.fwd[k']] == k';
      }
    }
    forall r' | r' in m'.bwd
      ensures m'.bwd[r'] in m'.fwd && m'.fwd[m'.bwd[r']] == r'
    {
      if r' != r {
        assert m.fwd[m.bwd[r']] == r';
      }
    }
  }

  /** Replacing with a variable key keeps an allocation one. */
  lemma ReplaceAllocates(m: BMap, k: IRValue, r: Register)
    requires Allocation(m) && k.Var?
    ensures Allocation(m.Replace(k, r)) && k in m.Replace(k, r).fwd && m.Replace(k, r).fwd[k] == r
  {
    ReplaceSpec(m, k, r);
  }

  /** The allocator's map: a bijection whose keys are all variables. */
  ghost predicate Allocation(m: BMap)
  {
    m.Valid() && forall k :: k in m.fwd ==> k.Var?
  }

  /** The first register in `t0..t6` order that nobody holds. */
  function FirstFree(m: BMap): (r: Option<Register>)
    ensures r.Some? ==> !m.ContainsValue(r.value)
    ensures r.Some? ==> exists i :: 0 <= i < |Registers| && Registers[i] == r.value && forall j :: 0 <= j < i ==> m.ContainsValue(Registers[j])
    ensures r.None? <==> forall reg: Register :: m.ContainsValue(reg)
  {
    var r := FreeFrom(m, 0);
    if r.None? then AllHeld(m); r else r
  }

  lemma IndexOf(reg: Register) returns (i: nat)
    ensures i < |Registers| && Registers[i] == reg
  {
    match reg
    case T0 => i := 0;
    case T1 => i := 1;
    case T2 => i := 2;
    case T3 => i := 3;
    case T4 => i := 4;
    case T5 => i := 5;
    case T6 => i := 6;
  }

  lemma AllHeld(m: BMap)
    requires forall j :: 0 <= j < |Registers| ==> m.ContainsValue(Registers[j])
    ensures forall reg: Register :: m.ContainsValue(reg)
  {
    forall reg: Register
      ensures m.ContainsValue(reg)
    {
      var i := IndexOf(reg);
    }
  }

  function FreeFrom(m: BMap, i: nat): (r: Option<Register>)
    requires i <= |Registers|
    ensures r.Some? ==> !m.ContainsValue(r.value)
    ensures r.Some? ==> exists n :: i <= n < |Registers| && Registers[n] == r.value && forall j :: i <= j < n ==> m.ContainsValue(Registers[j])
    ensures r.None? <==> forall j :: i <= j < |Registers| ==> m.ContainsValue(Registers[j])
    decreases |Registers| - i
  {
    if i == |Registers| then None
    else if !m.ContainsValue(Registers[i]) then Some(Registers[i])
    else FreeFrom(m, i + 1)
  }

  // ---------------------------------------------------------------------
  // Liveness for eviction: the registers held by operands of a stretch of
  // instructions.
  // ---------------------------------------------------------------------

  /** The registers the values hold. */
  function Held(m: BMap, vs: seq<IRValue>): (h: set<Register>)
    ensures h <= m.fwd.Values
  {
    if |vs| == 0 then {}
    else Held(m, vs[..|vs| - 1]) + (if vs[|vs| - 1] in m.fwd then {m.fwd[vs[|vs| - 1]]} else {})
  }

  /** The registers held by some operand of the instructions. */
  function Live(m: BMap, instrs: seq<Instruction>): (l: set<Register>)
    ensures l <= m.fwd.Values
  {
    if |instrs| == 0 then {}
    else Live(m, instrs[..|instrs| - 1]) + Held(m, instrs[|instrs| - 1].Operands())
  }

  lemma {:induction false} HeldSpec(m: BMap, vs: seq<IRValue>, r: Register)
    ensures r in Held(m, vs) <==> exists w :: w in vs && w in m.fwd && m.fwd[w] == r
  {
    if |vs| > 0 {
      HeldSpec(m, vs[..|vs| - 1], r);
      assert vs == vs[..|vs| - 1] + [vs[|vs| - 1]];
    }
  }

  /** A register is live exactly when some operand of some instruction holds it. */
  lemma {:induction false} LiveSpec(m: BMap, instrs: seq<Instruction>, r: Register)
    ensures r in Live(m, instrs) <==>
      exists j, w :: 0 <= j < |instrs| && w in instrs[j].Operands() && w in m.fwd && m.fwd[w] == r
  {
    if |instrs| > 0 {
      var n := |instrs| - 1;
      LiveSpec(m, instrs[..n], r);
      HeldSpec(m, instrs[n].Operands(), r);
      if r in Live(m, instrs) {
        if r in Live(m, instrs[..n]) {
          var j, w :| 0 <= j < n && w in instrs[..n][j].Operands() && w in m.fwd && m.fwd[w] == r;
          assert instrs[j] == instrs[..n][j];
        }
      } else {
        forall j, w | 0 <= j < |instrs| && w in instrs[j].Operands() && w in m.fwd
          ensures m.fwd[w] != r
        {
          if j < n {
            assert instrs[..n][j] == instrs[j];
          }
        }
      }
    }
  }

  /** The registers no operand of the instructions holds: the ones eviction may take. */
  function Dead(m: BMap, instrs: seq<Instruction>): (d: set<Register>)
    ensures forall r :: r in Registers && r !in m.fwd.Values ==> r in d
  {
    (set r: Register | r in Registers) - Live(m, instrs)
  }

  /** A register may be evicted exactly when no operand of the instructions holds it. */
  lemma DeadSpec(m: BMap, instrs: seq<Instruction>, r: Register)
    ensures r in Dead(m, instrs) <==>
      && r in Registers
      && forall j, w :: 0 <= j < |instrs| && w in instrs[j].Operands() && w in m.fwd ==> m.fwd[w] != r
  {
    LiveSpec(m, instrs, r);
  }

  /** `instructions[index..]`, empty when `index` is past the end. */
  function Suffix(instrs: seq<Instruction>, index: nat): seq<Instruction>
  {
    if index <= |instrs| then instrs[index..] else []
  }

  /**
   * Allocating `k` a register that is free or dead for `instrs` keeps every
   * operand of `instrs` in the register it holds.
   */
  lemma AllocationKeepsLive(m: BMap, k: IRValue, r: Register, instrs: seq<Instruction>)
    requires m.Valid() && k !in m.fwd
    requires !m.ContainsValue(r) || r !in Live(m, instrs)
    ensures KeepsLive(m, m.Replace(k, r), instrs)
  {
    ReplaceSpec(m, k, r);
    forall w | w in m.fwd && m.fwd[w] in Live(m, instrs)
      ensures w in m.Replace(k, r).fwd && m.Replace(k, r).fwd[w] == m.fwd[w]
    {
      assert m.fwd[w] in m.bwd;
    }
  }

  /** The operands of the first instruction are live for the whole stretch. */
  lemma OperandsLive(m: BMap, instrs: seq<Instruction>, w: IRValue)
    requires |instrs| > 0 && w in instrs[0].Operands() && w in m.fwd
    ensures m.fwd[w] in Live(m, instrs)
  {
    LiveSpec(m, instrs, m.fwd[w]);
  }

  // ---------------------------------------------------------------------
  // The simplification pass.
  // ---------------------------------------------------------------------

  /** Whether the rewrite of `instr` draws a temporary: SUB or MUL with exactly one immediate. */
  predicate DrawsTemp(instr: Instruction)
  {
    (instr.Sub? || instr.Mul?) && (instr.lhs.Imm? != instr.rhs.Imm?)
  }

  /** The binary operation of the same kind on new operands. */
  function SameOp(instr: Instruction, l: IRValue, r: IRValue): Instruction
    requires instr.IsBinary()
  {
    match instr
    case Add(d, _, _) => Add(d, l, r)
    case Sub(d, _, _) => Sub(d, l, r)
    case Mul(d, _, _) => Mul(d, l, r)
  }

  /** Java's `int` arithmetic of the binary operation on two constants. */
  function Fold(instr: Instruction, a: int, b: int): (r: int)
    requires instr.IsBinary()
    ensures IsInt32(r)
    ensures var exact := if instr.Add? then a + b else if instr.Sub? then a - b else a * b;
      IsInt32(exact) ==> r == exact
  {
    if instr.Add? then Wrap32(a + b) else if instr.Sub? then Wrap32(a - b) else Wrap32(a * b)
  }

  /** The rewrite of one instruction other than RET; `t` is the temporary it may draw. */
  function SimplifyOne(instr: Instruction, t: IRVariable): (r: seq<Instruction>)
    requires !instr.Ret?
    ensures |r| == (if DrawsTemp(instr) then 2 else 1) && NoRet(r)
    ensures r[|r| - 1].result == instr.result
  {
    if !instr.IsBinary() then [instr]
    else if instr.lhs.Imm? && instr.rhs.Imm? then [Mov(instr.result, Imm(Fold(instr, instr.lhs.n, instr.rhs.n)))]
    else if instr.lhs.Imm? then
      if instr.Add? then [Add(instr.result, instr.rhs, instr.lhs)]
      else [Mov(t, instr.lhs), SameOp(instr, Var(t), instr.rhs)]
    else if instr.rhs.Imm? then
      if instr.Add? then [instr]
      else [Mov(t, instr.rhs), SameOp(instr, instr.lhs, Var(t))]
    else [instr]
  }

  /** How many temporaries the pass draws over `prog`. */
  function Drawn(prog: seq<Instruction>): (n: nat)
    ensures n <= |prog|
  {
    if |prog| == 0 || prog[0].Ret? then 0
    else (if DrawsTemp(prog[0]) then 1 else 0) + Drawn(prog[1..])
  }

  /** `loadIR` on `prog`, with the temporary counter at `next`: up to and including the first RET. */
  function Simplify(prog: seq<Instruction>, next: nat): (r: seq<Instruction>)
    ensures |r| <= 2 * |prog|
  {
    if |prog| == 0 then []
    else if prog[0].Ret? then [prog[0]]
    else SimplifyOne(prog[0], Temp(next)) + Simplify(prog[1..], next + (if DrawsTemp(prog[0]) then 1 else 0))
  }

  /** The shape the pass leaves every instruction in. */
  predicate NormalForm(instr: Instruction)
  {
    && ((instr.Sub? || instr.Mul?) ==> instr.lhs.Var? && instr.rhs.Var?)
    && (instr.Add? ==> instr.lhs.Var?)
  }

  predicate NoRet(prog: seq<Instruction>)
  {
    forall j :: 0 <= j < |prog| ==> !prog[j].Ret?
  }

  /** `SimplifySnoc` stated on the prefixes of one list, as `loadIR`'s loop indexes it. */
  lemma LoadStep(prog: seq<Instruction>, i: nat, next: nat)
    requires i < |prog| && NoRet(prog[..i])
    ensures Simplify(prog[..i + 1], next) == Simplify(prog[..i], next) +
      (if prog[i].Ret? then [prog[i]] else SimplifyOne(prog[i], Temp(next + Drawn(prog[..i]))))
    ensures Drawn(prog[..i + 1]) == Drawn(prog[..i]) + (if !prog[i].Ret? && DrawsTemp(prog[i]) then 1 else 0)
    ensures !prog[i].Ret? ==> NoRet(prog[..i + 1])
  {
    assert prog[..i + 1] == prog[..i] + [prog[i]];
    SimplifySnoc(prog[..i], prog[i], next);
  }

  /** Extending the processed prefix by one instruction, as `loadIR`'s loop does. */
  lemma {:induction false} SimplifySnoc(p: seq<Instruction>, x: Instruction, next: nat)
    requires NoRet(p)
    ensures Simplify(p + [x], next) ==
      Simplify(p, next) + (if x.Ret? then [x] else SimplifyOne(x, Temp(next + Drawn(p))))
    ensures Drawn(p + [x]) == Drawn(p) + (if !x.Ret? && DrawsTemp(x) then 1 else 0)
  {
    if |p| > 0 {
      assert (p + [x])[1..] == p[1..] + [x];
      SimplifySnoc(p[1..], x, next + (if DrawsTemp(p[0]) then 1 else 0));
    } else {
      assert p + [x] == [x];
    }
  }

  /** Everything after the first RET is dropped. */
  lemma {:induction false} SimplifyStopsAtRet(prog: seq<Instruction>, j: nat, next: nat)
    requires j < |prog| && prog[j].Ret? && NoRet(prog[..j])
    ensures Simplify(prog, next) == Simplify(prog[..j + 1], next)
    ensures Drawn(prog) == Drawn(prog[..j + 1])
  {
    if j > 0 {
      NoRetShift(prog, j);
      assert prog[..j + 1][1..] == prog[1..][..j];
      SimplifyStopsAtRet(prog[1..], j - 1, next + (if DrawsTemp(prog[0]) then 1 else 0));
    }
  }

  /**
   * The pass keeps RET exactly when the input has one, and then only as the
   * last instruction.
   */
  lemma {:induction false} SimplifyRetLast(prog: seq<Instruction>, next: nat)
    ensures var s := Simplify(prog, next);
      && NoRet(s[..if |s| == 0 then 0 else |s| - 1])
      && (|s| > 0 && s[|s| - 1].Ret? <==> !NoRet(prog))
  {
    if |prog| > 0 && !prog[0].Ret? {
      var n' := next + (if DrawsTemp(prog[0]) then 1 else 0);
      SimplifyRetLast(prog[1..], n');
      NoRetTail(prog);
      RetLastPrepend(SimplifyOne(prog[0], Temp(next)), Simplify(prog[1..], n'));
    }
  }

  /**
   * The pass writes one instruction per instruction up to the first RET, plus
   * one MOV for each temporary it draws, and it draws at most one per
   * instruction.
   */
  lemma {:induction false} SimplifyLength(prog: seq<Instruction>, next: nat)
    ensures |Simplify(prog, next)| == EmitCount(prog) + Drawn(prog)
    ensures Drawn(prog) <= EmitCount(prog)
  {
    if |prog| > 0 && !prog[0].Ret? {
      SimplifyLength(prog[1..], next + (if DrawsTemp(prog[0]) then 1 else 0));
    }
  }

  /** A RET-free prefix stays RET-free without its first instruction. */
  lemma NoRetShift(prog: seq<Instruction>, j: nat)
    requires 0 < j <= |prog| && NoRet(prog[..j])
    ensures !prog[0].Ret? && NoRet(prog[1..][..j - 1])
  {
    assert prog[..j][0] == prog[0];
    var rest := prog[1..][..j - 1];
    forall i | 0 <= i < |rest|
      ensures !rest[i].Ret?
    {
      assert rest[i] == prog[..j][i + 1];
    }
  }

  /** A list whose first instruction is not RET has a RET exactly when its tail does. */
  lemma NoRetTail(prog: seq<Instruction>)
    requires |prog| > 0 && !prog[0].Ret?
    ensures NoRet(prog) <==> NoRet(prog[1..])
  {
    if !NoRet(prog) {
      var j :| 0 <= j < |prog| && prog[j].Ret?;
      assert prog[1..][j - 1] == prog[j];
    }
    if !NoRet(prog[1..]) {
      var j :| 0 <= j < |prog[1..]| && prog[1..][j].Ret?;
      assert prog[j + 1] == prog[1..][j];
    }
  }

  /** Putting RET-free instructions in front keeps RET, if any, last. */
  lemma RetLastPrepend(head: seq<Instruction>, tail: seq<Instruction>)
    requires |head| > 0 && NoRet(head)
    requires NoRet(tail[..if |tail| == 0 then 0 else |tail| - 1])
    ensures var s := head + tail;
      && NoRet(s[..|s| - 1])
      && (s[|s| - 1].Ret? <==> |tail| > 0 && tail[|tail| - 1].Ret?)
  {
    var s := head + tail;
    if |tail| > 0 {
      assert s[..|s| - 1] == head + tail[..|tail| - 1];
      assert s[|s| - 1] == tail[|tail| - 1];
    } else {
      assert s[..|s| - 1] == head[..|head| - 1];
    }
  }

  /** After the pass no SUB or MUL has an immediate operand and no ADD has one on the left. */
  lemma {:induction false} SimplifyNormalizes(prog: seq<Instruction>, next: nat)
    ensures forall i :: 0 <= i < |Simplify(prog, next)| ==> NormalForm(Simplify(prog, next)[i])
  {
    if |prog| > 0 && !prog[0].Ret? {
      var n' := next + (if DrawsTemp(prog[0]) then 1 else 0);
      SimplifyNormalizes(prog[1..], n');
      var head := SimplifyOne(prog[0], Temp(next));
      var tail := Simplify(prog[1..], n');
      forall i | 0 <= i < |head + tail|
        ensures NormalForm((head + tail)[i])
      {
        if i >= |head| {
          assert (head + tail)[i] == tail[i - |head|];
        }
      }
    }
  }

  /** Instructions the pass leaves as they are. */
  lemma SimplifyPassesThrough(instr: Instruction, t: IRVariable)
    requires instr.Mov? || (instr.Add? && instr.lhs.Var?) || (instr.IsBinary() && instr.lhs.Var? && instr.rhs.Var?)
    ensures SimplifyOne(instr, t) == [instr]
  {
  }

  /** A variable's value; one never written reads as 0. */
  function Lookup(env: Env, x: IRVariable): int
  {
    if x in env then env[x] else 0
  }

  /** The environments agree on every variable drawn before `bound`. */
  ghost predicate Agree(e1: Env, e2: Env, bound: nat)
  {
    forall x :: VarBelow(x, bound) ==> Lookup(e1, x) == Lookup(e2, x)
  }

  /** Runs straight-line code without RET. */
  function ExecAll(env: Env, prog: seq<Instruction>): Env
    decreases |prog|
  {
    if |prog| == 0 then env else ExecAll(Exec(env, prog[0]), prog[1..])
  }

  lemma {:induction false} ReturnedAfter(env: Env, pre: seq<Instruction>, rest: seq<Instruction>)
    requires NoRet(pre)
    ensures Returned(env, pre + rest) == Returned(ExecAll(env, pre), rest)
    decreases |pre|
  {
    if |pre| > 0 {
      assert (pre + rest)[0] == pre[0];
      assert (pre + rest)[1..] == pre[1..] + rest;
      ReturnedAfter(Exec(env, pre[0]), pre[1..], rest);
    } else {
      assert pre + rest == rest;
    }
  }

  lemma ValueAgree(e1: Env, e2: Env, bound: nat, v: IRValue)
    requires Agree(e1, e2, bound) && ValueBelow(v, bound)
    ensures Value(e1, v) == Value(e2, v)
  {
    if v.Var? {
      assert Lookup(e1, v.v) == Lookup(e2, v.v);
    }
  }

  /** Writing the same value to the same variable keeps agreement. */
  lemma UpdateAgrees(e1: Env, e2: Env, bound: nat, d: IRVariable, x: int)
    requires Agree(e1, e2, bound)
    ensures Agree(e1[d := x], e2[d := x], bound)
  {
    forall y | VarBelow(y, bound)
      ensures Lookup(e1[d := x], y) == Lookup(e2[d := x], y)
    {
      if y != d { assert Lookup(e1, y) == Lookup(e2, y); }
    }
  }

  /** Writing a temporary drawn at or after `bound` keeps agreement. */
  lemma FreshAgrees(e1: Env, e2: Env, bound: nat, t: nat, c: int)
    requires Agree(e1, e2, bound) && t >= bound
    ensures Agree(e1, e2[Temp(t) := c], bound)
  {
    forall y | VarBelow(y, bound)
      ensures Lookup(e1, y) == Lookup(e2[Temp(t) := c], y)
    {
      assert y != Temp(t);
      assert Lookup(e1, y) == Lookup(e2, y);
    }
  }

  /** The binary instruction writes the folded value of its operands. */
  lemma ExecBinary(env: Env, instr: Instruction)
    requires instr.IsBinary()
    ensures Exec(env, instr) == env[instr.result := Fold(instr, Value(env, instr.lhs), Value(env, instr.rhs))]
  {
  }

  /** Rewrites that draw no temporary. */
  lemma PlainAgrees(e1: Env, e2: Env, bound: nat, instr: Instruction, t: nat)
    requires Agree(e1, e2, bound) && InstrBelow(instr, bound) && !instr.Ret? && !DrawsTemp(instr)
    ensures Agree(Exec(e1, instr), ExecAll(e2, SimplifyOne(instr, Temp(t))), bound)
  {
    var out := SimplifyOne(instr, Temp(t));
    assert |out| == 1 && ExecAll(e2, out) == Exec(e2, out[0]);
    if instr.Mov? {
      ValueAgree(e1, e2, bound, instr.from);
      UpdateAgrees(e1, e2, bound, instr.result, Value(e1, instr.from));
    } else {
      ValueAgree(e1, e2, bound, instr.lhs);
      ValueAgree(e1, e2, bound, instr.rhs);
      var x := Fold(instr, Value(e1, instr.lhs), Value(e1, instr.rhs));
      ExecBinary(e1, instr);
      if out[0].IsBinary() {
        ExecBinary(e2, out[0]);
      }
      assert Exec(e2, out[0]) == e2[instr.result := x];
      UpdateAgrees(e1, e2, bound, instr.result, x);
    }
  }

  /** Rewrites that move an immediate into a fresh temporary first. */
  lemma TempAgrees(e1: Env, e2: Env, bound: nat, instr: Instruction, t: nat)
    requires Agree(e1, e2, bound) && InstrBelow(instr, bound) && DrawsTemp(instr) && t >= bound
    ensures Agree(Exec(e1, instr), ExecAll(e2, SimplifyOne(instr, Temp(t))), bound)
  {
    var out := SimplifyOne(instr, Temp(t));
    var l, r := instr.lhs, instr.rhs;
    var c := if l.Imm? then l.n else r.n;
    var e2t := e2[Temp(t) := c];
    assert Exec(e2, out[0]) == e2t;
    assert out[1..][0] == out[1] && out[1..][1..] == [];
    assert ExecAll(e2, out) == ExecAll(e2t, out[1..]);
    assert ExecAll(e2t, out[1..]) == ExecAll(Exec(e2t, out[1]), []);
    FreshAgrees(e1, e2, bound, t, c);
    ValueAgree(e1, e2t, bound, l);
    ValueAgree(e1, e2t, bound, r);
    var x := Fold(instr, Value(e1, l), Value(e1, r));
    ExecBinary(e1, instr);
    ExecBinary(e2t, out[1]);
    assert Value(e2t, Var(Temp(t))) == c;
    assert Exec(e2t, out[1]) == e2t[instr.result := x];
    UpdateAgrees(e1, e2t, bound, instr.result, x);
  }

  /**
   * Constant folding, the commuted ADD and the temporaries all compute what
   * the original instruction computes: one rewritten instruction leaves the
   * environments agreeing below `bound`.
   */
  lemma SimplifyOneAgrees(e1: Env, e2: Env, bound: nat, instr: Instruction, t: nat)
    requires Agree(e1, e2, bound) && InstrBelow(instr, bound) && !instr.Ret? && t >= bound
    ensures Agree(Exec(e1, instr), ExecAll(e2, SimplifyOne(instr, Temp(t))), bound)
  {
    if DrawsTemp(instr) {
      TempAgrees(e1, e2, bound, instr, t);
    } else {
      PlainAgrees(e1, e2, bound, instr, t);
    }
  }

  /**
   * The pass preserves meaning: started from environments that agree on
   * every variable the program can mention, the original and the simplified
   * program return the same value. The temporaries it draws are fresh.
   */
  lemma {:induction false} SimplifyPreservesResult(prog: seq<Instruction>, bound: nat, next: nat, e1: Env, e2: Env)
    requires ProgBelow(prog, bound) && next >= bound && Agree(e1, e2, bound)
    ensures Returned(e1, prog) == Returned(e2, Simplify(prog, next))
  {
    if |prog| > 0 {
      if prog[0].Ret? {
        ValueAgree(e1, e2, bound, prog[0].returnValue);
      } else {
        assert InstrBelow(prog[0], bound);
        var head := SimplifyOne(prog[0], Temp(next));
        var n' := next + (if DrawsTemp(prog[0]) then 1 else 0);
        SimplifyOneAgrees(e1, e2, bound, prog[0], next);
        assert NoRet(head);
        ReturnedAfter(e2, head, Simplify(prog[1..], n'));
        assert ProgBelow(prog[1..], bound) by {
          forall i | 0 <= i < |prog[1..]| ensures InstrBelow(prog[1..][i], bound) {
            assert prog[1..][i] == prog[i + 1];
          }
        }
        SimplifyPreservesResult(prog[1..], bound, n', Exec(e1, prog[0]), ExecAll(e2, head));
      }
    }
  }

  // ---------------------------------------------------------------------
  // Emission.
  // ---------------------------------------------------------------------

  /** One assembly line, with the instruction it came from (the trailing comment). */
  datatype AsmLine =
    | Text
    | Addi(rd: Register, rs: Register, imm: int, origin: Instruction)
    | AddR(rd: Register, rs1: Register, rs2: Register, origin: Instruction)
    | SubR(rd: Register, rs1: Register, rs2: Register, origin: Instruction)
    | MulR(rd: Register, rs1: Register, rs2: Register, origin: Instruction)
    | Li(rd: Register, imm: int, origin: Instruction)
    | Mv(rd: Register, rs: Register, origin: Instruction)
    | MvA0(rs: Register, origin: Instruction)

  datatype AsmError =
    | NoEnoughRegisters
    | NullRegister(instr: Instruction)   // a register looked up for the line is null

  /** The line `run` emits for `instr` once its operands are allocated in `m`. */
  function Line(instr: Instruction, m: BMap): (r: Result<AsmLine, AsmError>)
    ensures r.Err? ==> r.error == NullRegister(instr)
  {
    match instr
    case Add(d, l, x) =>
      var rd, rs1, rs2 := m.GetByKey(Var(d)), m.GetByKey(l), m.GetByKey(x);
      if x.Imm? then
        if rd.Some? && rs1.Some? then Ok(Addi(rd.value, rs1.value, x.n, instr)) else Err(NullRegister(instr))
      else if rd.Some? && rs1.Some? && rs2.Some? then Ok(AddR(rd.value, rs1.value, rs2.value, instr))
      else Err(NullRegister(instr))
    case Sub(d, l, x) =>
      var rd, rs1, rs2 := m.GetByKey(Var(d)), m.GetByKey(l), m.GetByKey(x);
      if rd.Some? && rs1.Some? && rs2.Some? then Ok(SubR(rd.value, rs1.value, rs2.value, instr))
      else Err(NullRegister(instr))
    case Mul(d, l, x) =>
      var rd, rs1, rs2 := m.GetByKey(Var(d)), m.GetByKey(l), m.GetByKey(x);
      if rd.Some? && rs1.Some? && rs2.Some? then Ok(MulR(rd.value, rs1.value, rs2.value, instr))
      else Err(NullRegister(instr))
    case Mov(d, f) =>
      var rd, rs := m.GetByKey(Var(d)), m.GetByKey(f);
      if f.Imm? then
        if rd.Some? then Ok(Li(rd.value, f.n, instr)) else Err(NullRegister(instr))
      else if rd.Some? && rs.Some? then Ok(Mv(rd.value, rs.value, instr))
      else Err(NullRegister(instr))
    case Ret(v) =>
      var rs := m.GetByKey(v);
      if rs.Some? then Ok(MvA0(rs.value, instr)) else Err(NullRegister(instr))
  }

  /** `addi` exactly for an ADD with an immediate on the right, `li` exactly for a MOV of an immediate. */
  lemma LineShape(instr: Instruction, m: BMap)
    requires Line(instr, m).Ok?
    ensures var line := Line(instr, m).value;
      && line.origin == instr
      && (line.Addi? <==> instr.Add? && instr.rhs.Imm?)
      && (line.AddR? <==> instr.Add? && instr.rhs.Var?)
      && (line.SubR? <==> instr.Sub?)
      && (line.MulR? <==> instr.Mul?)
      && (line.Li? <==> instr.Mov? && instr.from.Imm?)
      && (line.Mv? <==> instr.Mov? && instr.from.Var?)
      && (line.MvA0? <==> instr.Ret?)
  {
  }

  /**
   * Once every variable an instruction names holds a register, its line
   * exists; RET of an immediate never does.
   */
  lemma LineDefined(instr: Instruction, m: BMap)
    requires !instr.Ret? && NormalForm(instr) && Covered(instr, m)
    ensures Line(instr, m).Ok?
  {
  }

  /** Every variable an instruction other than RET names holds a register. */
  predicate Covered(instr: Instruction, m: BMap)
    requires !instr.Ret?
  {
    Var(instr.result) in m.fwd && forall w :: w in instr.Operands() && w.Var? ==> w in m.fwd
  }

  lemma RetImmediateFails(n: int, m: BMap)
    requires Allocation(m)
    ensures Line(Ret(Imm(n)), m) == Err(NullRegister(Ret(Imm(n))))
  {
  }

  // ---------------------------------------------------------------------
  // What a line computes on the register file.
  // ---------------------------------------------------------------------

  type RegFile = map<Register, int>

  function Reg(regs: RegFile, r: Register): int
  {
    if r in regs then regs[r] else 0
  }

  /** RV32 semantics of a line; `a0` is set only by the return move. */
  function AsmExec(line: AsmLine, regs: RegFile): RegFile
  {
    match line
    case Text => regs
    case Addi(rd, rs, imm, _) => regs[rd := Wrap32(Reg(regs, rs) + imm)]
    case AddR(rd, a, b, _) => regs[rd := Wrap32(Reg(regs, a) + Reg(regs, b))]
    case SubR(rd, a, b, _) => regs[rd := Wrap32(Reg(regs, a) - Reg(regs, b))]
    case MulR(rd, a, b, _) => regs[rd := Wrap32(Reg(regs, a) * Reg(regs, b))]
    case Li(rd, imm, _) => regs[rd := imm]
    case Mv(rd, rs, _) => regs[rd := Reg(regs, rs)]
    case MvA0(_, _) => regs
  }

  /** Every allocated variable's register holds the variable's value. */
  ghost predicate Holds(m: BMap, regs: RegFile, env: Env)
  {
    forall w :: w in m.fwd && w.Var? ==> Reg(regs, m.fwd[w]) == Lookup(env, w.v)
  }

  lemma HoldsValue(m: BMap, regs: RegFile, env: Env, w: IRValue)
    requires Allocation(m) && Holds(m, regs, env) && w in m.fwd
    ensures Reg(regs, m.fwd[w]) == Value(env, w)
  {
  }

  /**
   * Each emitted line computes its instruction: if the registers hold the
   * allocated variables' values before the line, they hold them after it,
   * and the return move puts the returned value in `a0`.
   */
  lemma LineComputes(instr: Instruction, m: BMap, regs: RegFile, env: Env)
    requires Allocation(m) && Holds(m, regs, env) && Line(instr, m).Ok?
    ensures Holds(m, AsmExec(Line(instr, m).value, regs), Exec(env, instr))
    ensures instr.Ret? ==> Reg(regs, Line(instr, m).value.rs) == Value(env, instr.returnValue)
  {
    if instr.IsBinary() {
      var x := BinaryWrites(instr, m, regs, env);
      WriteHolds(m, regs, env, instr.result, x);
    } else if instr.Mov? {
      var x := MovWrites(instr, m, regs, env);
      WriteHolds(m, regs, env, instr.result, x);
    } else {
      HoldsValue(m, regs, env, instr.returnValue);
    }
  }

  /** An arithmetic line writes the wrapped result to the destination's register. */
  lemma BinaryWrites(instr: Instruction, m: BMap, regs: RegFile, env: Env) returns (x: int)
    requires instr.IsBinary() && Allocation(m) && Holds(m, regs, env) && Line(instr, m).Ok?
    ensures Var(instr.result) in m.fwd
    ensures Exec(env, instr) == env[instr.result := x]
    ensures AsmExec(Line(instr, m).value, regs) == regs[m.fwd[Var(instr.result)] := x]
  {
    HoldsValue(m, regs, env, instr.lhs);
    if instr.rhs.Var? { HoldsValue(m, regs, env, instr.rhs); }
    x := Fold(instr, Value(env, instr.lhs), Value(env, instr.rhs));
    ExecBinary(env, instr);
  }

  /** A move line writes the moved value to the destination's register. */
  lemma MovWrites(instr: Instruction, m: BMap, regs: RegFile, env: Env) returns (x: int)
    requires instr.Mov? && Allocation(m) && Holds(m, regs, env) && Line(instr, m).Ok?
    ensures Var(instr.result) in m.fwd
    ensures Exec(env, instr) == env[instr.result := x]
    ensures AsmExec(Line(instr, m).value, regs) == regs[m.fwd[Var(instr.result)] := x]
  {
    if instr.from.Var? { HoldsValue(m, regs, env, instr.from); }
    x := Value(env, instr.from);
  }

  /** Writing a variable's register and the variable together keeps the correspondence. */
  lemma WriteHolds(m: BMap, regs: RegFile, env: Env, d: IRVariable, x: int)
    requires Allocation(m) && Holds(m, regs, env) && Var(d) in m.fwd
    ensures Holds(m, regs[m.fwd[Var(d)] := x], env[d := x])
  {
    var rd := m.fwd[Var(d)];
    forall w | w in m.fwd && w.Var?
      ensures Reg(regs[rd := x], m.fwd[w]) == Lookup(env[d := x], w.v)
    {
      if w != Var(d) && m.fwd[w] == rd {
        ValidInjective(m, w, Var(d));
      }
    }
  }

  /** The number of lines a complete `run` emits: through the first RET, or all. */
  function EmitCount(prog: seq<Instruction>): (n: nat)
    ensures n <= |prog|
  {
    if |prog| == 0 then 0
    else if prog[0].Ret? then 1
    else 1 + EmitCount(prog[1..])
  }

  // ---------------------------------------------------------------------
  // The generator.
  // ---------------------------------------------------------------------

  class AssemblyGenerator {
    var instructions: seq<Instruction>
    var registerBMap: BMap
    var asmInstructions: seq<AsmLine>
    /** The counter behind `IRVariable.temp()`, shared with the IR builder. */
    const temps: TempAllocator

    constructor (temps: TempAllocator)
      ensures this.temps == temps
      ensures instructions == [] && registerBMap == EmptyBMap && asmInstructions == [Text]
      ensures Allocation(registerBMap)
    {
      this.temps := temps;
      instructions := [];
      registerBMap := EmptyBMap;
      asmInstructions := [Text];
    }

    /** `loadIR`: appends the simplified instructions, drawing temporaries from the shared counter. */
    method LoadIR(origin: seq<Instruction>)
      modifies this`instructions, temps
      ensures instructions == old(instructions) + Simplify(origin, old(temps.next))
      ensures temps.next == old(temps.next) + Drawn(origin)
    {
      ghost var start := temps.next;
      var i := 0;
      while i < |origin|
        invariant 0 <= i <= |origin| && NoRet(origin[..i])
        invariant instructions == old(instructions) + Simplify(origin[..i], start)
        invariant temps.next == start + Drawn(origin[..i])
      {
        var instr := origin[i];
        LoadStep(origin, i, start);
        if instr.IsReturn() {
          instructions := instructions + [instr];
          SimplifyStopsAtRet(origin, i, start);
          return;
        }
        var out := Rewrite(instr);
        instructions := instructions + out;
        i := i + 1;
      }
      assert origin[..i] == origin;
    }

    /** The body of `loadIR`'s loop for an instruction other than RET. */
    method Rewrite(instr: Instruction) returns (out: seq<Instruction>)
      requires !instr.Ret?
      modifies temps
      ensures out == SimplifyOne(instr, Temp(old(temps.next)))
      ensures temps.next == old(temps.next) + (if DrawsTemp(instr) then 1 else 0)
    {
      if instr.IsUnary() {
        return [instr];
      }
      var lhs, rhs, result := instr.lhs, instr.rhs, instr.result;
      if lhs.IsImmediate() && rhs.IsImmediate() {
        var opResult := Fold(instr, lhs.n, rhs.n);
        out := [Mov(result, Imm(opResult))];
      } else if lhs.IsImmediate() && rhs.IsIRVariable() {
        if instr.Add? {
          out := [Add(result, rhs, lhs)];
        } else {
          var temp := temps.Fresh();
          out := [Mov(temp, lhs), SameOp(instr, Var(temp), rhs)];
        }
      } else if lhs.IsIRVariable() && rhs.IsImmediate() {
        if instr.Add? {
          out := [instr];
        } else {
          var temp := temps.Fresh();
          out := [Mov(temp, rhs), SameOp(instr, lhs, Var(temp))];
        }
      } else {
        out := [instr];
      }
    }

    /**
     * `VariableToRegister(operand, index)`: an immediate or an already
     * allocated value keeps the map; otherwise the first free register is
     * taken; otherwise some register no operand of `instructions[index..]`
     * holds; otherwise it fails.
     */
    method VariableToRegister(operand: IRValue, index: nat) returns (r: Result<(), AsmError>)
      requires Allocation(registerBMap)
      modifies this`registerBMap
      ensures Allocation(registerBMap)
      ensures Allocates(old(registerBMap), registerBMap, operand, Suffix(instructions, index), r)
      ensures r.Ok? && operand.Var? ==> operand in registerBMap.fwd
      ensures r.Err? ==> r.error == NoEnoughRegisters
      ensures r.Ok? ==> KeepsLive(old(registerBMap), registerBMap, Suffix(instructions, index))
    {
      var m := registerBMap;
      if operand.IsImmediate() || m.ContainsKey(operand) {
        return Ok(());
      }
      var free := FindFree(m);
      if free.Some? {
        ReplaceAllocates(m, operand, free.value);
        AllocationKeepsLive(m, operand, free.value, Suffix(instructions, index));
        registerBMap := m.Replace(operand, free.value);
        return Ok(());
      }
      var notUseRegs := NotUsed(m, index);
      if notUseRegs != {} {
        var reg :| reg in notUseRegs;
        ReplaceAllocates(m, operand, reg);
        AllocationKeepsLive(m, operand, reg, Suffix(instructions, index));
        registerBMap := m.Replace(operand, reg);
        return Ok(());
      }
      return Err(NoEnoughRegisters);
    }

    /** The scan for a register nobody holds, in `t0..t6` order. */
    static method FindFree(m: BMap) returns (free: Option<Register>)
      ensures free == FirstFree(m)
    {
      var i := 0;
      while i < |Registers|
        invariant 0 <= i <= |Registers| && FreeFrom(m, 0) == FreeFrom(m, i)
      {
        var register := Registers[i];
        if !m.ContainsValue(register) {
          return Some(register);
        }
        i := i + 1;
      }
      return None;
    }

    /** The eviction scan: every register minus those held by operands of `instructions[index..]`. */
    method NotUsed(m: BMap, index: nat) returns (notUseRegs: set<Register>)
      ensures notUseRegs == Dead(m, Suffix(instructions, index))
    {
      notUseRegs := Dead(m, []);
      var k := index;
      while k < |instructions|
        invariant index <= k && (k > index ==> k <= |instructions|)
        invariant notUseRegs == Dead(m, if k <= |instructions| then instructions[index..k] else [])
      {
        notUseRegs := RemoveHeld(m, notUseRegs, instructions[k].Operands());
        assert instructions[index..k + 1] == instructions[index..k] + [instructions[k]];
        k := k + 1;
      }
      if index <= |instructions| {
        assert instructions[index..k] == instructions[index..];
      }
    }

    /** Allocates the values `instr` names (operands first, then the result) and builds its line. */
    method Emit(index: nat) returns (r: Result<AsmLine, AsmError>)
      requires Allocation(registerBMap) && index < |instructions|
      modifies this`registerBMap
      ensures Allocation(registerBMap)
      ensures AllocatesInstr(old(registerBMap), registerBMap, instructions[index], instructions[index..],
        if r == Err(NoEnoughRegisters) then Err(NoEnoughRegisters) else Ok(()))
      ensures r.Ok? ==> Line(instructions[index], registerBMap) == r
      ensures r.Err? && r.error.NullRegister? ==>
        Line(instructions[index], registerBMap) == r && (instructions[index].Ret? || !NormalForm(instructions[index]))
    {
      var instr := instructions[index];
      var ok: Result<(), AsmError> := Ok(());
      if instr.IsBinary() {
        ok := AllocateBinary(index);
      } else if instr.IsUnary() {
        ok := AllocateMov(index);
      } else {
        assert AllocatesInstr(old(registerBMap), registerBMap, instr, instructions[index..], ok);
      }
      if ok.Err? {
        return Err(ok.error);
      }
      match ok.value { case () => }
      r := Line(instr, registerBMap);
      if r.Err? && !instr.Ret? && NormalForm(instr) {
        LineDefined(instr, registerBMap);
      }
    }

    /** ADD, SUB and MUL allocate the left operand, the right operand, then the result. */
    method AllocateBinary(index: nat) returns (ok: Result<(), AsmError>)
      requires Allocation(registerBMap) && index < |instructions| && instructions[index].IsBinary()
      modifies this`registerBMap
      ensures Allocation(registerBMap)
      ensures AllocatesInstr(old(registerBMap), registerBMap, instructions[index], instructions[index..], ok)
      ensures ok.Ok? ==> Covered(instructions[index], registerBMap)
      ensures ok.Err? ==> ok.error == NoEnoughRegisters
    {
      var instr := instructions[index];
      ghost var rest := Suffix(instructions, index);
      assert rest[0] == instr;
      assert AllocOrder(instr) == [instr.lhs] + ([instr.rhs] + [Var(instr.result)]);
      ghost var m0 := registerBMap;
      var l, x := instr.lhs, instr.rhs;
      ok := VariableToRegister(l, index);
      ghost var m1, r1 := registerBMap, ok;
      if ok.Err? {
        AllocCons(m0, m1, m1, l, [x] + [Var(instr.result)], rest, r1, r1);
        return;
      }
      Keep(m1, l, instr, rest);
      ok := VariableToRegister(x, index);
      ghost var m2, r2 := registerBMap, ok;
      if ok.Err? {
        AllocCons(m1, m2, m2, x, [Var(instr.result)], rest, r2, r2);
        AllocCons(m0, m1, m2, l, [x] + [Var(instr.result)], rest, r1, r2);
        return;
      }
      if l.Var? { Kept(m1, m2, l, rest); }
      Keep(m2, l, instr, rest);
      Keep(m2, x, instr, rest);
      ok := VariableToRegister(Var(instr.result), index);
      AllocOne(m2, registerBMap, Var(instr.result), rest, ok);
      AllocCons(m1, m2, registerBMap, x, [Var(instr.result)], rest, r2, ok);
      AllocCons(m0, m1, registerBMap, l, [x] + [Var(instr.result)], rest, r1, ok);
      if ok.Err? { return; }
      if l.Var? { Kept(m2, registerBMap, l, rest); }
      if x.Var? { Kept(m2, registerBMap, x, rest); }
    }

    /** MOV allocates its source, then its result. */
    method AllocateMov(index: nat) returns (ok: Result<(), AsmError>)
      requires Allocation(registerBMap) && index < |instructions| && instructions[index].IsUnary()
      modifies this`registerBMap
      ensures Allocation(registerBMap)
      ensures AllocatesInstr(old(registerBMap), registerBMap, instructions[index], instructions[index..], ok)
      ensures ok.Ok? ==> Covered(instructions[index], registerBMap)
      ensures ok.Err? ==> ok.error == NoEnoughRegisters
    {
      var instr := instructions[index];
      ghost var rest := Suffix(instructions, index);
      assert rest[0] == instr;
      assert AllocOrder(instr) == [instr.from] + [Var(instr.result)];
      ghost var m0 := registerBMap;
      var f := instr.from;
      ok := VariableToRegister(f, index);
      ghost var m1, r1 := registerBMap, ok;
      if ok.Err? {
        AllocCons(m0, m1, m1, f, [Var(instr.result)], rest, r1, r1);
        return;
      }
      Keep(m1, f, instr, rest);
      ok := VariableToRegister(Var(instr.result), index);
      AllocOne(m1, registerBMap, Var(instr.result), rest, ok);
      AllocCons(m0, m1, registerBMap, f, [Var(instr.result)], rest, r1, ok);
      if ok.Err? { return; }
      if f.Var? { Kept(m1, registerBMap, f, rest); }
    }

    /**
     * `run`: one line per instruction after `.text`, stopping right after
     * the first RET. The map for each line is the one before it (the initial
     * map for the first) after allocating that instruction's values, and the
     * line is the instruction's line under it. On an exception the map is
     * the one the failing instruction's allocation left.
     */
    method Run() returns (r: Result<(), AsmError>, ghost maps: seq<BMap>)
      requires Allocation(registerBMap)
      modifies this`registerBMap, this`asmInstructions
      ensures Allocation(registerBMap)
      ensures |asmInstructions| >= |old(asmInstructions)| && asmInstructions[..|old(asmInstructions)|] == old(asmInstructions)
      ensures Emitted(instructions, old(registerBMap), maps, asmInstructions[|old(asmInstructions)|..])
      ensures r.Ok? ==> |maps| == EmitCount(instructions) && registerBMap == Before(old(registerBMap), maps, |maps|)
      ensures r.Err? ==> |maps| < EmitCount(instructions) && NoRet(instructions[..|maps|])
      ensures r.Err? ==> AllocatesInstr(Before(old(registerBMap), maps, |maps|), registerBMap,
        instructions[|maps|], instructions[|maps|..], if r == Err(NoEnoughRegisters) then r else Ok(()))
      ensures r.Err? && r.error.NullRegister? ==>
        && r.error.instr == instructions[|maps|] && (r.error.instr.Ret? || !NormalForm(r.error.instr))
        && Line(instructions[|maps|], registerBMap) == Err(r.error)
    {
      maps := [];
      ghost var lines: seq<AsmLine> := [];
      var i := 0;
      while i < |instructions|
        invariant |maps| == i && Allocation(registerBMap)
        invariant asmInstructions == old(asmInstructions) + lines
        invariant Emitted(instructions, old(registerBMap), maps, lines) && NoRet(instructions[..i])
        invariant registerBMap == Before(old(registerBMap), maps, i)
      {
        var instr := instructions[i];
        var line := Emit(i);
        if line.Err? {
          CountBeyond(instructions, i);
          Appended(old(asmInstructions), lines);
          return Err(line.error), maps;
        }
        Advance(instructions, i);
        EmittedSnoc(instructions, old(registerBMap), maps, lines, registerBMap, line.value);
        asmInstructions := asmInstructions + [line.value];
        lines := lines + [line.value];
        maps := maps + [registerBMap];
        i := i + 1;
        if instr.IsReturn() {
          Appended(old(asmInstructions), lines);
          return Ok(()), maps;
        }
      }
      assert instructions[..i] == instructions;
      CountAll(instructions);
      Appended(old(asmInstructions), lines);
      r := Ok(());
    }
  }

  /** The map in force before line `j`: the initial map, or the map of the line before. */
  function Before(m0: BMap, maps: seq<BMap>, j: nat): BMap
    requires j <= |maps|
  {
    if j == 0 then m0 else maps[j - 1]
  }

  /**
   * `lines` has one line per map in `maps`: each map is the previous one
   * (`m0` first) after allocating what the instruction at the same position
   * names, and the line is that instruction's line under it.
   */
  ghost predicate Emitted(prog: seq<Instruction>, m0: BMap, maps: seq<BMap>, lines: seq<AsmLine>)
  {
    && |maps| <= |prog| && |lines| == |maps|
    && forall j {:trigger lines[j]} :: 0 <= j < |lines| ==> LineUnder(prog, j, Before(m0, maps, j), maps[j], lines[j])
  }

  /** `line` is the line of `prog[j]` under `m`, the map `prev` becomes by allocating what `prog[j]` names. */
  ghost predicate LineUnder(prog: seq<Instruction>, j: nat, prev: BMap, m: BMap, line: AsmLine)
    requires j < |prog|
  {
    AllocatesInstr(prev, m, prog[j], prog[j..], Ok(())) && Allocation(m) && Line(prog[j], m) == Ok(line)
  }

  lemma Appended(before: seq<AsmLine>, lines: seq<AsmLine>)
    ensures (before + lines)[..|before|] == before && (before + lines)[|before|..] == lines
  {
  }

  /** One more line: the loop goes on after an instruction other than RET, and stops after RET. */
  lemma Advance(prog: seq<Instruction>, i: nat)
    requires i < |prog| && NoRet(prog[..i])
    ensures !prog[i].Ret? ==> NoRet(prog[..i + 1])
    ensures prog[i].Ret? ==> i + 1 == EmitCount(prog)
  {
    if prog[i].Ret? {
      CountAtRet(prog, i + 1);
    } else {
      assert prog[..i + 1] == prog[..i] + [prog[i]];
    }
  }

  /** Appending the line of the next instruction under the map its allocation left. */
  lemma EmittedSnoc(prog: seq<Instruction>, m0: BMap, maps: seq<BMap>, lines: seq<AsmLine>, m: BMap, line: AsmLine)
    requires Emitted(prog, m0, maps, lines) && |maps| < |prog|
    requires LineUnder(prog, |maps|, Before(m0, maps, |maps|), m, line)
    ensures Emitted(prog, m0, maps + [m], lines + [line])
  {
    var maps', lines' := maps + [m], lines + [line];
    forall j | 0 <= j < |lines'|
      ensures LineUnder(prog, j, Before(m0, maps', j), maps'[j], lines'[j])
    {
      if j < |maps| {
        assert LineUnder(prog, j, Before(m0, maps, j), maps[j], lines[j]);
        assert maps'[j] == maps[j] && lines'[j] == lines[j];
      } else {
        assert maps'[j] == m && lines'[j] == line;
      }
      assert Before(m0, maps', j) == Before(m0, maps, j);
    }
  }

  /**
   * Along a run, every value that line `j` or a later line reads keeps, through
   * line `j`'s allocations, the register it held before them.
   */
  lemma EmittedKeepsLive(prog: seq<Instruction>, m0: BMap, maps: seq<BMap>, lines: seq<AsmLine>, j: nat)
    requires Allocation(m0) && Emitted(prog, m0, maps, lines) && j < |maps|
    ensures KeepsLive(Before(m0, maps, j), maps[j], prog[j..])
  {
    if j > 0 {
      assert LineUnder(prog, j - 1, Before(m0, maps, j - 1), maps[j - 1], lines[j - 1]);
    }
    assert LineUnder(prog, j, Before(m0, maps, j), maps[j], lines[j]);
    AllocatesSeqKeepsLive(Before(m0, maps, j), maps[j], AllocOrder(prog[j]), prog[j..], Ok(()));
  }

  /** Every value whose register is live for `instrs` keeps that register. */
  ghost predicate KeepsLive(m: BMap, m': BMap, instrs: seq<Instruction>)
  {
    forall w :: w in m.fwd && m.fwd[w] in Live(m, instrs) ==> w in m'.fwd && m'.fwd[w] == m.fwd[w]
  }

  /**
   * The allocation rule: `m'` is `m` after allocating `operand`, with `instrs`
   * the instructions still to come, and `r` its outcome.
   */
  ghost predicate Allocates(m: BMap, m': BMap, operand: IRValue, instrs: seq<Instruction>, r: Result<(), AsmError>)
  {
    && (operand.Imm? || m.ContainsKey(operand) ==> r.Ok? && m' == m)
    && (operand.Var? && !m.ContainsKey(operand) && FirstFree(m).Some? ==>
          r.Ok? && m' == m.Replace(operand, FirstFree(m).value))
    && (operand.Var? && !m.ContainsKey(operand) && FirstFree(m).None? ==>
          && (r.Ok? <==> Dead(m, instrs) != {})
          && (r.Ok? ==> operand in m'.fwd && m'.fwd[operand] in Dead(m, instrs) && m' == m.Replace(operand, m'.fwd[operand])))
    && (r.Err? ==> r.error == NoEnoughRegisters && m' == m)
  }

  /** The values `run` allocates for an instruction, in order: its operands, then its result; none for RET. */
  function AllocOrder(instr: Instruction): (vs: seq<IRValue>)
    ensures instr.Ret? <==> |vs| == 0
    ensures !instr.Ret? ==> vs[..|vs| - 1] == instr.Operands() && vs[|vs| - 1] == Var(instr.result)
  {
    if instr.Ret? then [] else instr.Operands() + [Var(instr.result)]
  }

  /**
   * `m'` is `m` after allocating the values `vs` one after another, with
   * `instrs` the instructions still to come; the first failure ends the
   * chain and is its outcome `ok`.
   */
  ghost predicate AllocatesSeq(m: BMap, m': BMap, vs: seq<IRValue>, instrs: seq<Instruction>, ok: Result<(), AsmError>)
    decreases |vs|
  {
    if |vs| == 0 then m' == m && ok.Ok?
    else exists m1: BMap, r1: Result<(), AsmError> ::
      && Allocates(m, m1, vs[0], instrs, r1)
      && if r1.Err? then m' == m1 && ok == r1 else AllocatesSeq(m1, m', vs[1..], instrs, ok)
  }

  /** `m'` is `m` after `run` allocated what `instr` names, `instrs` starting at `instr`. */
  ghost predicate AllocatesInstr(m: BMap, m': BMap, instr: Instruction, instrs: seq<Instruction>, ok: Result<(), AsmError>)
  {
    AllocatesSeq(m, m', AllocOrder(instr), instrs, ok)
  }

  /** One allocation in front of a chain. */
  lemma AllocCons(m: BMap, m1: BMap, m': BMap, v: IRValue, vs: seq<IRValue>, instrs: seq<Instruction>,
                  r1: Result<(), AsmError>, ok: Result<(), AsmError>)
    requires Allocates(m, m1, v, instrs, r1)
    requires r1.Err? ==> m' == m1 && ok == r1
    requires r1.Ok? ==> AllocatesSeq(m1, m', vs, instrs, ok)
    ensures AllocatesSeq(m, m', [v] + vs, instrs, ok)
  {
    var all := [v] + vs;
    assert all[0] == v && all[1..] == vs;
    assert Allocates(m, m1, all[0], instrs, r1);
  }

  /** A chain of one allocation. */
  lemma AllocOne(m: BMap, m': BMap, v: IRValue, instrs: seq<Instruction>, r: Result<(), AsmError>)
    requires Allocates(m, m', v, instrs, r)
    ensures AllocatesSeq(m, m', [v], instrs, r)
  {
    AllocCons(m, m', m', v, [], instrs, r, r);
    assert [v] + [] == [v];
  }

  /** One allocation keeps the map an allocation and every live operand in its register. */
  lemma AllocatesKeepsLive(m: BMap, m': BMap, v: IRValue, instrs: seq<Instruction>, r: Result<(), AsmError>)
    requires Allocation(m) && Allocates(m, m', v, instrs, r)
    ensures Allocation(m') && KeepsLive(m, m', instrs)
  {
    if v.Var? && !m.ContainsKey(v) && r.Ok? {
      var reg := if FirstFree(m).Some? then FirstFree(m).value else m'.fwd[v];
      assert m' == m.Replace(v, reg);
      ReplaceAllocates(m, v, reg);
      AllocationKeepsLive(m, v, reg, instrs);
    }
  }

  /** Keeping live registers composes: a value live for `instrs` under `m` is still live under `m1`. */
  lemma KeepsLiveTrans(m: BMap, m1: BMap, m2: BMap, instrs: seq<Instruction>)
    requires m.Valid() && KeepsLive(m, m1, instrs) && KeepsLive(m1, m2, instrs)
    ensures KeepsLive(m, m2, instrs)
  {
    forall w | w in m.fwd && m.fwd[w] in Live(m, instrs)
      ensures w in m2.fwd && m2.fwd[w] == m.fwd[w]
    {
      var reg := m.fwd[w];
      LiveSpec(m, instrs, reg);
      var j, w' :| 0 <= j < |instrs| && w' in instrs[j].Operands() && w' in m.fwd && m.fwd[w'] == reg;
      ValidInjective(m, w, w');
      LiveSpec(m1, instrs, reg);
    }
  }

  /**
   * Allocating everything an instruction names keeps every value that a
   * remaining instruction reads in the register it held: a value written by
   * one line is read from the same register by the later lines.
   */
  lemma {:induction false} AllocatesSeqKeepsLive(m: BMap, m': BMap, vs: seq<IRValue>, instrs: seq<Instruction>, ok: Result<(), AsmError>)
    requires Allocation(m) && AllocatesSeq(m, m', vs, instrs, ok)
    ensures Allocation(m') && KeepsLive(m, m', instrs)
    decreases |vs|
  {
    if |vs| > 0 {
      var m1, r1 :| Allocates(m, m1, vs[0], instrs, r1)
        && if r1.Err? then m' == m1 && ok == r1 else AllocatesSeq(m1, m', vs[1..], instrs, ok);
      AllocatesKeepsLive(m, m1, vs[0], instrs, r1);
      if r1.Ok? {
        AllocatesSeqKeepsLive(m1, m', vs[1..], instrs, ok);
        KeepsLiveTrans(m, m1, m', instrs);
      }
    }
  }

  /** The operand's register is live for the stretch that starts with its instruction. */
  lemma Keep(m: BMap, w: IRValue, instr: Instruction, instrs: seq<Instruction>)
    requires |instrs| > 0 && instrs[0] == instr && w in instr.Operands()
    ensures w in m.fwd ==> m.fwd[w] in Live(m, instrs)
  {
    if w in m.fwd { OperandsLive(m, instrs, w); }
  }

  /** An allocation that keeps every live register keeps the operand's. */
  lemma Kept(m: BMap, m': BMap, w: IRValue, instrs: seq<Instruction>)
    requires w in m.fwd && m.fwd[w] in Live(m, instrs)
    requires KeepsLive(m, m', instrs)
    ensures w in m'.fwd && m'.fwd[w] == m.fwd[w]
  {
  }

  /** One step of the eviction scan: drops the registers the values hold. */
  function RemoveHeld(m: BMap, regs: set<Register>, vs: seq<IRValue>): (r: set<Register>)
    ensures r == regs - Held(m, vs)
  {
    if |vs| == 0 then regs
    else
      var r := RemoveHeld(m, regs, vs[..|vs| - 1]);
      if vs[|vs| - 1] in m.fwd then r - {m.fwd[vs[|vs| - 1]]} else r
  }

  lemma CountBeyond(prog: seq<Instruction>, i: nat)
    requires i < |prog| && NoRet(prog[..i])
    ensures i < EmitCount(prog)
  {
    if i > 0 {
      assert prog[1..][..i - 1] == prog[..i][1..];
      CountBeyond(prog[1..], i - 1);
    }
  }

  lemma CountAtRet(prog: seq<Instruction>, i: nat)
    requires 0 < i <= |prog| && NoRet(prog[..i - 1]) && prog[i - 1].Ret?
    ensures EmitCount(prog) == i
  {
    if i > 1 {
      assert prog[1..][..i - 2] == prog[..i - 1][1..];
      CountAtRet(prog[1..], i - 1);
    }
  }

  lemma CountAll(prog: seq<Instruction>)
    requires NoRet(prog)
    ensures EmitCount(prog) == |prog|
  {
    if |prog| > 0 {
      assert NoRet(prog[1..]) by {
        forall j | 0 <= j < |prog| - 1 ensures !prog[1..][j].Ret? { assert prog[1..][j] == prog[j + 1]; }
      }
      CountAll(prog[1..]);
    }
  }
}
