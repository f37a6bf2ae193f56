/**
 * The intermediate representation the IR builder emits and the code
 * generator consumes: values, variables, the five instruction kinds, the
 * fresh-temporary counter, and a reference meaning for instruction lists.
 */
module IRCode {
  import opened Results

  /** A variable: one named in the source, or a temporary drawn from the counter. */
  datatype IRVariable = Named(name: string) | Temp(id: nat)

  /** An operand: an immediate 32-bit constant or a variable. */
  datatype IRValue = Imm(n: int) | Var(v: IRVariable)
  {
    predicate IsImmediate() { Imm? }
    predicate IsIRVariable() { Var? }
  }

  datatype Instruction =
    | Add(result: IRVariable, lhs: IRValue, rhs: IRValue)
    | Sub(result: IRVariable, lhs: IRValue, rhs: IRValue)
    | Mul(result: IRVariable, lhs: IRValue, rhs: IRValue)
    | Mov(result: IRVariable, from: IRValue)
    | Ret(returnValue: IRValue)
  {
    predicate IsBinary() { Add? || Sub? || Mul? }
    predicate IsUnary() { Mov? }
    predicate IsReturn() { Ret? }

    /** `getOperands`: the values read, in order (the result is not among them). */
    function Operands(): seq<IRValue>
    {
      match this
      case Add(_, l, r) => [l, r]
      case Sub(_, l, r) => [l, r]
      case Mul(_, l, r) => [l, r]
      case Mov(_, f) => [f]
      case Ret(v) => [v]
    }
  }

  // ---------------------------------------------------------------------
  // Java's 32-bit `int`.
  // ---------------------------------------------------------------------

  const TwoTo32: int := 0x1_0000_0000
  const IntMin: int := -0x8000_0000
  const IntMax: int := 0x7FFF_FFFF

  predicate IsInt32(x: int) { IntMin <= x <= IntMax }

  /** Two's-complement wrap-around of an exact result into the `int` range. */
  function Wrap32(x: int): (r: int)
    ensures IsInt32(r)
    ensures (x - r) % TwoTo32 == 0
    ensures IsInt32(x) ==> r == x
  {
    (x - IntMin) % TwoTo32 + IntMin
  }

  /** The counter behind `IRVariable.temp()`: every temporary it hands out is new. */
  class TempAllocator {
    var next: nat

    constructor (start: nat)
      ensures next == start
    {
      next := start;
    }

    method Fresh() returns (v: IRVariable)
      modifies this
      ensures v == Temp(old(next)) && next == old(next) + 1
    {
      v := Temp(next);
      next := next + 1;
    }
  }

  // ---------------------------------------------------------------------
  // Reference meaning of an instruction list: straight-line execution over
  // an environment, with Java's wrapping arithmetic. A variable never
  // written reads as 0.
  // ---------------------------------------------------------------------

  type Env = map<IRVariable, int>

  function Value(env: Env, v: IRValue): int
  {
    match v
    case Imm(n) => n
    case Var(x) => if x in env then env[x] else 0
  }

  function Exec(env: Env, instr: Instruction): Env
  {
    match instr
    case Add(d, l, r) => env[d := Wrap32(Value(env, l) + Value(env, r))]
    case Sub(d, l, r) => env[d := Wrap32(Value(env, l) - Value(env, r))]
    case Mul(d, l, r) => env[d := Wrap32(Value(env, l) * Value(env, r))]
    case Mov(d, f) => env[d := Value(env, f)]
    case Ret(_) => env
  }

  /** The value returned by the first RET, if the list reaches one. */
  function Returned(env: Env, prog: seq<Instruction>): Option<int>
    decreases |prog|
  {
    if |prog| == 0 then None
    else if prog[0].Ret? then Some(Value(env, prog[0].returnValue))
    else Returned(Exec(env, prog[0]), prog[1..])
  }

  /** Every temporary the value mentions was drawn before `bound`. */
  predicate ValueBelow(v: IRValue, bound: nat)
  {
    v.Var? && v.v.Temp? ==> v.v.id < bound
  }

  predicate VarBelow(x: IRVariable, bound: nat)
  {
    x.Temp? ==> x.id < bound
  }

  /** Every temporary the instruction mentions was drawn before `bound`. */
  predicate InstrBelow(instr: Instruction, bound: nat)
  {
    match instr
    case Add(d, l, r) => VarBelow(d, bound) && ValueBelow(l, bound) && ValueBelow(r, bound)
    case Sub(d, l, r) => VarBelow(d, bound) && ValueBelow(l, bound) && ValueBelow(r, bound)
    case Mul(d, l, r) => VarBelow(d, bound) && ValueBelow(l, bound) && ValueBelow(r, bound)
    case Mov(d, f) => VarBelow(d, bound) && ValueBelow(f, bound)
    case Ret(v) => ValueBelow(v, bound)
  }

  predicate ProgBelow(prog: seq<Instruction>, bound: nat)
  {
    forall i :: 0 <= i < |prog| ==> InstrBelow(prog[i], bound)
  }
}
