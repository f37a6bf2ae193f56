/**
 * The IR builder: an observer of the LR driver that keeps a value stack
 * parallel to the driver's symbol stack and emits one IR instruction for
 * each assignment, return and arithmetic reduction.
 */
module IRGeneration {
  import opened Results
  import opened Lexing
  import opened ParseTable
  import opened ParseSymbols
  import opened IRCode
  import opened SymbolTables

  /** The exceptions a reduction or shift can raise in the source. */
  datatype IRGenError =
    | NullToken                      // whenShift on a null lookahead
    | NumberFormat(text: string)     // Integer.parseInt beyond the int range
    | StackUnderflow                 // pop on an empty stack
    | NotAVariable(value: IRValue)   // the cast of an assignment target
    | MissingValue                   // an instruction operand would be null

  // ---------------------------------------------------------------------
  // Shift.
  // ---------------------------------------------------------------------

  /** The text matches `^[0-9]+$`. */
  predicate IsNumeral(s: string)
  {
    |s| > 0 && forall i :: 0 <= i < |s| ==> '0' <= s[i] <= '9'
  }

  /** The decimal value of a string of digits. */
  function DigitsValue(s: string): (n: nat)
    requires forall i :: 0 <= i < |s| ==> '0' <= s[i] <= '9'
    ensures n == 0 <==> forall i :: 0 <= i < |s| ==> s[i] == '0'
  {
    if |s| == 0 then 0
    else DigitsValue(s[..|s| - 1]) * 10 + (s[|s| - 1] as int - '0' as int)
  }

  /** The value `whenShift` attaches to a shifted token. */
  function ShiftValue(t: Option<Token>): (r: Result<IRValue, IRGenError>)
    ensures r.Ok? && r.value.Imm? ==> t.Some? && IsNumeral(t.value.text) && IsInt32(r.value.n) && r.value.n >= 0
    ensures r.Ok? && r.value.Var? ==> t.Some? && !IsNumeral(t.value.text) && r.value.v == Named(t.value.text)
    ensures r.Err? <==> t.None? || (IsNumeral(t.value.text) && DigitsValue(t.value.text) > IntMax)
  {
    match t
    case None => Err(NullToken)
    case Some(tok) =>
      if IsNumeral(tok.text) then
        var n := DigitsValue(tok.text);
        if n > IntMax then Err(NumberFormat(tok.text)) else Ok(Imm(n))
      else Ok(Var(Named(tok.text)))
  }

  /** The numeral a shifted constant came from is read back exactly. */
  lemma {:induction false} DigitsValueOfRendering(n: nat)
    ensures IsNumeral(Decimal(n)) && DigitsValue(Decimal(n)) == n
  {
    if n >= 10 {
      DigitsValueOfRendering(n / 10);
      var s := Decimal(n);
      assert s[..|s| - 1] == Decimal(n / 10);
    }
  }

  /**
   * The `^[0-9]+$` test of `whenShift` picks out exactly the integer
   * constants the lexer produced: a digit run is a numeral, while an
   * identifier starts with a letter and a keyword or punctuation token has
   * no text.
   */
  lemma {:induction false} ScannedNumerals(s: string, pos: nat, allowed: set<string>)
    requires pos <= |s|
    ensures NumeralsExactlyConstants(ScanFrom(s, pos, allowed).tokens)
    decreases |s| - pos
  {
    if pos < |s| {
      var c := s[pos];
      if IsWhitespace(c) {
        ScannedNumerals(s, pos + 1, allowed);
        assert ScanFrom(s, pos, allowed) == ScanFrom(s, pos + 1, allowed);
      } else if IsLetter(c) {
        var e := RunEnd(s, pos, false);
        ScannedNumerals(s, e, allowed);
        var id := s[pos..e];
        assert !IsNumeral(id) by {
          assert id[0] == c;
        }
        var tok := if id in allowed then Simple(Kind(id)) else Token(IdKind, id);
        NumeralsPrepend(tok, ScanFrom(s, e, allowed));
      } else if IsDigit(c) {
        var e := RunEnd(s, pos, true);
        ScannedNumerals(s, e, allowed);
        NumeralsPrepend(Token(IntConstKind, s[pos..e]), ScanFrom(s, e, allowed));
      } else if PunctKind(c).Some? {
        ScannedNumerals(s, pos + 1, allowed);
        NumeralsPrepend(Simple(PunctKind(c).value), ScanFrom(s, pos + 1, allowed));
      }
    }
  }

  /** A token's text passes the `^[0-9]+$` test exactly when it is an integer constant with its digits. */
  predicate NumeralExactlyIfConstant(t: Token)
  {
    IsNumeral(t.text) <==> t.kind == IntConstKind && t.text != ""
  }

  predicate NumeralsExactlyConstants(tokens: seq<Token>)
  {
    forall i :: 0 <= i < |tokens| ==> NumeralExactlyIfConstant(tokens[i])
  }

  lemma NumeralsPrepend(t: Token, rest: Scanned)
    requires NumeralExactlyIfConstant(t) && NumeralsExactlyConstants(rest.tokens)
    ensures NumeralsExactlyConstants(Prepend(t, rest).tokens)
  {
    var tokens := Prepend(t, rest).tokens;
    forall i | 0 <= i < |tokens|
      ensures NumeralExactlyIfConstant(tokens[i])
    {
      if i > 0 {
        assert tokens[i] == rest.tokens[i - 1];
      }
    }
  }

  /** The decimal rendering of a natural number (the text `IRImmediate.toString` gives back). */
  function Decimal(n: nat): (s: string)
    ensures |s| > 0
    decreases n
  {
    if n < 10 then [('0' as int + n) as char]
    else Decimal(n / 10) + [('0' as int + n % 10) as char]
  }

  // ---------------------------------------------------------------------
  // Reduce.
  // ---------------------------------------------------------------------

  /** How many entries `whenReduce` pops for a production, decided by its index. */
  function PopCount(p: Production): (n: nat)
    ensures n <= 3 || n == |p.body|
    ensures p.index !in {6, 7, 8, 9, 10, 11, 12, 13, 14, 15} ==> n == |p.body|
  {
    match p.index
    case 6 => 3
    case 7 => 2
    case 8 => 3
    case 9 => 3
    case 11 => 3
    case 10 => 1
    case 12 => 1
    case 14 => 1
    case 13 => 3
    case 15 => 1
    case _ => |p.body|
  }

  /** The production's body has the length its index implies in the grammar. */
  predicate Conforms(p: Production)
  {
    PopCount(p) == |p.body|
  }

  /** The builder's state: value stack, IR list and the temporary counter. */
  datatype Builder = Builder(stack: seq<Symbol>, ir: seq<Instruction>, nextTemp: nat)

  function Top(stack: seq<Symbol>, k: nat): Symbol
    requires k < |stack|
  {
    stack[|stack| - 1 - k]
  }

  /** The arithmetic instruction productions 8, 9 and 11 emit. */
  function Arith(index: int, d: IRVariable, l: IRValue, r: IRValue): Instruction
    requires index in {8, 9, 11}
  {
    if index == 8 then Add(d, l, r) else if index == 9 then Sub(d, l, r) else Mul(d, l, r)
  }

  /** The effect of `whenReduce(_, p)` on the builder. */
  function Reduced(b: Builder, p: Production): (r: Result<Builder, IRGenError>)
    ensures r.Ok? ==> b.nextTemp <= r.value.nextTemp <= b.nextTemp + 1
    ensures r.Ok? ==> (r.value.nextTemp == b.nextTemp + 1 <==> p.index in {8, 9, 11})
    ensures r == Err(StackUnderflow) <==> |b.stack| < PopCount(p)
    ensures r.Err? && |b.stack| >= PopCount(p) ==> p.index in {6, 7, 8, 9, 11}
  {
    var k := PopCount(p);
    if |b.stack| < k then Err(StackUnderflow)
    else
      var rest := b.stack[..|b.stack| - k];
      var head := OfNonTerminal(p.head);
      match p.index
      case 6 =>
        var target := Top(b.stack, 2).value;
        var e := Top(b.stack, 0).value;
        if target.Some? && target.value.Imm? then Err(NotAVariable(target.value))
        else if target.None? || e.None? then Err(MissingValue)
        else Ok(Builder(rest + [head], b.ir + [Mov(target.value.v, e.value)], b.nextTemp))
      case 7 =>
        var e := Top(b.stack, 0).value;
        if e.None? then Err(MissingValue)
        else Ok(Builder(rest + [head], b.ir + [Ret(e.value)], b.nextTemp))
      case 8 => ReduceArith(b, p, rest, head)
      case 9 => ReduceArith(b, p, rest, head)
      case 11 => ReduceArith(b, p, rest, head)
      case 10 => Ok(Builder(rest + [head.(value := Top(b.stack, 0).value)], b.ir, b.nextTemp))
      case 12 => Ok(Builder(rest + [head.(value := Top(b.stack, 0).value)], b.ir, b.nextTemp))
      case 14 => Ok(Builder(rest + [head.(value := Top(b.stack, 0).value)], b.ir, b.nextTemp))
      case 15 => Ok(Builder(rest + [head.(value := Top(b.stack, 0).value)], b.ir, b.nextTemp))
      case 13 => Ok(Builder(rest + [head.(value := Top(b.stack, 1).value)], b.ir, b.nextTemp))
      case _ => Ok(Builder(rest + [head], b.ir, b.nextTemp))
  }

  function ReduceArith(b: Builder, p: Production, rest: seq<Symbol>, head: Symbol): (r: Result<Builder, IRGenError>)
    requires p.index in {8, 9, 11} && |b.stack| >= 3
    ensures r.Err? <==> Top(b.stack, 2).value.None? || Top(b.stack, 0).value.None?
    ensures r.Err? ==> r.error == MissingValue
    ensures r.Ok? ==> && r.value.nextTemp == b.nextTemp + 1
                      && |r.value.ir| == |b.ir| + 1 && r.value.ir[..|b.ir|] == b.ir
                      && !r.value.ir[|b.ir|].Ret? && r.value.ir[|b.ir|].result == Temp(b.nextTemp)
                      && r.value.stack == rest + [head.(value := Some(Var(Temp(b.nextTemp))))]
  {
    var l := Top(b.stack, 2).value;
    var r := Top(b.stack, 0).value;
    if l.None? || r.None? then Err(MissingValue)
    else
      var t := Temp(b.nextTemp);
      Ok(Builder(rest + [head.(value := Some(Var(t)))], b.ir + [Arith(p.index, t, l.value, r.value)], b.nextTemp + 1))
  }

  // ---------------------------------------------------------------------
  // Properties of a reduction.
  // ---------------------------------------------------------------------

  /**
   * A reduction pops exactly the entries its production index calls for
   * (the body length, for a conforming production), leaves the entries below
   * untouched and pushes one symbol for the head nonterminal.
   */
  lemma ReduceStack(b: Builder, p: Production)
    requires Reduced(b, p).Ok?
    ensures var b' := Reduced(b, p).value;
      && |b'.stack| == |b.stack| - PopCount(p) + 1
      && (Conforms(p) ==> |b'.stack| == |b.stack| - |p.body| + 1)
      && b'.stack[..|b'.stack| - 1] == b.stack[..|b.stack| - PopCount(p)]
      && b'.stack[|b'.stack| - 1].GetNonTerminal() == Some(p.head)
  {
  }

  /** A reduction appends at most one instruction and never changes the IR before it. */
  lemma ReduceAppendsAtMostOne(b: Builder, p: Production)
    requires Reduced(b, p).Ok?
    ensures var b' := Reduced(b, p).value;
      && |b.ir| <= |b'.ir| <= |b.ir| + 1
      && b'.ir[..|b.ir|] == b.ir
      && (|b'.ir| == |b.ir| + 1 <==> p.index in {6, 7, 8, 9, 11})
  {
  }

  /**
   * The arithmetic productions pop right operand, operator, left operand and
   * emit `op(t, left, right)` into a temporary `t` that is fresh: the counter
   * moves past it, and the head carries it as its value.
   */
  lemma ReduceArithEmits(b: Builder, p: Production)
    requires p.index in {8, 9, 11} && Reduced(b, p).Ok?
    ensures |b.stack| >= 3
    ensures var b' := Reduced(b, p).value;
      && Top(b.stack, 2).value.Some? && Top(b.stack, 0).value.Some?
      && b'.nextTemp == b.nextTemp + 1
      && b'.ir == b.ir + [Arith(p.index, Temp(b.nextTemp), Top(b.stack, 2).value.value, Top(b.stack, 0).value.value)]
      && b'.stack[|b'.stack| - 1].value == Some(Var(Temp(b.nextTemp)))
  {
  }

  /** An assignment emits `MOV(id, E)` and a return `RET(E)`; both heads carry no value. */
  lemma ReduceStatementEmits(b: Builder, p: Production)
    requires p.index in {6, 7} && Reduced(b, p).Ok?
    ensures var b' := Reduced(b, p).value;
      && b'.nextTemp == b.nextTemp
      && b'.stack[|b'.stack| - 1].value == None
      && (p.index == 6 ==>
            (&& |b.stack| >= 3 && Top(b.stack, 2).value.Some? && Top(b.stack, 2).value.value.Var?
             && Top(b.stack, 0).value.Some?
             && b'.ir == b.ir + [Mov(Top(b.stack, 2).value.value.v, Top(b.stack, 0).value.value)]))
      && (p.index == 7 ==> |b.stack| >= 2 && Top(b.stack, 0).value.Some? && b'.ir == b.ir + [Ret(Top(b.stack, 0).value.value)])
  {
  }

  /** The assignment fails exactly when its target holds an immediate, as the cast does in the source. */
  lemma ReduceAssignTargetCast(b: Builder, p: Production)
    requires p.index == 6 && |b.stack| >= 3
    ensures var t := Top(b.stack, 2).value;
      (t.Some? && t.value.Imm?) <==> (Reduced(b, p).Err? && Reduced(b, p).error.NotAVariable?)
    ensures var t := Top(b.stack, 2).value;
      t.Some? && t.value.Imm? ==> Reduced(b, p) == Err(NotAVariable(t.value))
  {
  }

  /** Pass-through productions forward a child's value and emit nothing. */
  lemma ReduceForwards(b: Builder, p: Production)
    requires p.index in {10, 12, 13, 14, 15} && |b.stack| >= PopCount(p)
    ensures Reduced(b, p).Ok?
    ensures var b' := Reduced(b, p).value;
      && b'.ir == b.ir && b'.nextTemp == b.nextTemp
      && b'.stack[|b'.stack| - 1].value == Top(b.stack, if p.index == 13 then 1 else 0).value
  {
  }

  /** A reduction fails for lack of entries exactly when the stack is shorter than the pop count. */
  lemma ReduceUnderflow(b: Builder, p: Production)
    ensures Reduced(b, p) == Err(StackUnderflow) <==> |b.stack| < PopCount(p)
  {
  }

  // ---------------------------------------------------------------------
  // Freshness of temporaries: every temporary on the stack or in the IR was
  // drawn before the counter's current value.
  // ---------------------------------------------------------------------

  ghost predicate StackBelow(stack: seq<Symbol>, bound: nat)
  {
    forall i :: 0 <= i < |stack| && stack[i].value.Some? ==> ValueBelow(stack[i].value.value, bound)
  }

  ghost predicate BuilderFresh(b: Builder)
  {
    StackBelow(b.stack, b.nextTemp) && ProgBelow(b.ir, b.nextTemp)
  }

  lemma BelowMonotone(v: IRValue, a: nat, b: nat)
    requires ValueBelow(v, a) && a <= b
    ensures ValueBelow(v, b)
  {
  }

  /**
   * Reductions keep every temporary below the counter, so the temporary the
   * next arithmetic reduction draws occurs nowhere in the IR so far.
   */
  lemma {:induction false} ReduceKeepsFresh(b: Builder, p: Production)
    requires BuilderFresh(b) && Reduced(b, p).Ok?
    ensures BuilderFresh(Reduced(b, p).value)
  {
    var b' := Reduced(b, p).value;
    var k := PopCount(p);
    var rest := b.stack[..|b.stack| - k];
    assert b'.stack[..|b'.stack| - 1] == rest;
    forall i | 0 <= i < |b'.stack| && b'.stack[i].value.Some?
      ensures ValueBelow(b'.stack[i].value.value, b'.nextTemp)
    {
      if i < |b'.stack| - 1 {
        assert b'.stack[i] == b.stack[i];
        BelowMonotone(b'.stack[i].value.value, b.nextTemp, b'.nextTemp);
      } else if p.index in {10, 12, 13, 14, 15} {
        var j := |b.stack| - 1 - (if p.index == 13 then 1 else 0);
        assert b'.stack[i].value == b.stack[j].value;
      }
    }
    forall i | 0 <= i < |b'.ir| ensures InstrBelow(b'.ir[i], b'.nextTemp) {
      if i < |b.ir| {
        assert b'.ir[i] == b.ir[i];
        assert InstrBelow(b.ir[i], b.nextTemp);
      } else if p.index in {8, 9, 11} {
        assert ValueBelow(Top(b.stack, 2).value.value, b.nextTemp);
        assert ValueBelow(Top(b.stack, 0).value.value, b.nextTemp);
      } else if p.index == 6 {
        assert ValueBelow(Top(b.stack, 2).value.value, b.nextTemp);
        assert ValueBelow(Top(b.stack, 0).value.value, b.nextTemp);
      } else {
        assert ValueBelow(Top(b.stack, 0).value.value, b.nextTemp);
      }
    }
  }

  /** The temporary an arithmetic reduction draws is new to the IR. */
  lemma FreshTempUnused(b: Builder)
    requires BuilderFresh(b)
    ensures forall i :: 0 <= i < |b.ir| ==> Temp(b.nextTemp) !in InstrVars(b.ir[i])
  {
  }

  /** The variables an instruction writes or reads. */
  function InstrVars(instr: Instruction): set<IRVariable>
  {
    (if instr.Ret? then {} else {instr.result})
    + set v | v in instr.Operands() && v.Var? :: v.v
  }

  class IRGenerator {
    var table: SymbolTable?
    var tokenStack: seq<Symbol>
    var irList: seq<Instruction>
    const temps: TempAllocator

    /** The abstract builder state. */
    function State(): Builder
      reads this, temps
    {
      Builder(tokenStack, irList, temps.next)
    }

    ghost predicate Valid()
      reads this, temps
    {
      BuilderFresh(State())
    }

    constructor (temps: TempAllocator)
      ensures this.temps == temps && table == null
      ensures tokenStack == [] && irList == []
      ensures Valid()
    {
      this.temps := temps;
      table := null;
      tokenStack := [];
      irList := [];
    }

    method SetSymbolTable(t: SymbolTable)
      modifies this`table
      ensures table == t
    {
      table := t;
    }

    /** `whenShift`: pushes exactly one symbol carrying the token's value. */
    method WhenShift(status: Status, token: Option<Token>) returns (r: Result<(), IRGenError>)
      requires Valid()
      modifies this`tokenStack
      ensures Valid()
      ensures r.Ok? <==> ShiftValue(token).Ok?
      ensures r.Ok? ==> tokenStack == old(tokenStack) + [OfToken(token).(value := Some(ShiftValue(token).value))]
      ensures r.Err? ==> tokenStack == old(tokenStack) && r.error == ShiftValue(token).error
    {
      if token.None? {
        return Err(NullToken);
      }
      var text := token.value.text;
      var curSymbol := OfToken(token);
      if IsNumeral(text) {
        var n := DigitsValue(text);
        if n > IntMax {
          return Err(NumberFormat(text));
        }
        curSymbol := curSymbol.(value := Some(Imm(n)));
      } else {
        curSymbol := curSymbol.(value := Some(Var(Named(text))));
      }
      tokenStack := tokenStack + [curSymbol];
      return Ok(());
    }

    /** `whenReduce`: pops the production's entries, pushes its head and appends at most one instruction. */
    method WhenReduce(status: Status, p: Production) returns (r: Result<(), IRGenError>)
      requires Valid()
      modifies this`tokenStack, this`irList, temps
      ensures Valid()
      ensures r.Ok? <==> Reduced(old(State()), p).Ok?
      ensures r.Ok? ==> State() == Reduced(old(State()), p).value
      ensures r.Err? ==> State() == old(State()) && r.error == Reduced(old(State()), p).error
    {
      if p.index in {8, 9, 11} {
        r := WhenReduceArith(p);
        return;
      }
      ghost var b := State();
      var k := PopCount(p);
      if |tokenStack| < k {
        return Err(StackUnderflow);
      }
      var stack := tokenStack;
      var head := OfNonTerminal(p.head);
      var instr: Option<Instruction> := None;
      match p.index {
        case 6 =>
          var right := stack[|stack| - 1];
          var left := stack[|stack| - 3];
          stack := stack[..|stack| - 3];
          if left.value.Some? && left.value.value.Imm? {
            return Err(NotAVariable(left.value.value));
          }
          if left.value.None? || right.value.None? {
            return Err(MissingValue);
          }
          instr := Some(Mov(left.value.value.v, right.value.value));
        case 7 =>
          var right := stack[|stack| - 1];
          stack := stack[..|stack| - 2];
          if right.value.None? {
            return Err(MissingValue);
          }
          instr := Some(Ret(right.value.value));
        case 10 =>
          head := head.(value := stack[|stack| - 1].value);
          stack := stack[..|stack| - 1];
        case 12 =>
          head := head.(value := stack[|stack| - 1].value);
          stack := stack[..|stack| - 1];
        case 14 =>
          head := head.(value := stack[|stack| - 1].value);
          stack := stack[..|stack| - 1];
        case 13 =>
          head := head.(value := stack[|stack| - 2].value);
          stack := stack[..|stack| - 3];
        case 15 =>
          head := head.(value := stack[|stack| - 1].value);
          stack := stack[..|stack| - 1];
        case _ =>
          var i := 0;
          while i < |p.body|
            invariant 0 <= i <= |p.body| && |stack| == |tokenStack| - i
            invariant stack == tokenStack[..|tokenStack| - i]
          {
            stack := stack[..|stack| - 1];
            i := i + 1;
          }
      }
      tokenStack := stack + [head];
      if instr.Some? {
        irList := irList + [instr.value];
      }
      ReduceKeepsFresh(b, p);
      return Ok(());
    }

    /** The arithmetic reductions 8, 9 and 11: a fresh temporary receives the operation's result. */
    method WhenReduceArith(p: Production) returns (r: Result<(), IRGenError>)
      requires Valid() && p.index in {8, 9, 11}
      modifies this`tokenStack, this`irList, temps
      ensures Valid()
      ensures r.Ok? <==> Reduced(old(State()), p).Ok?
      ensures r.Ok? ==> State() == Reduced(old(State()), p).value
      ensures r.Err? ==> State() == old(State()) && r.error == Reduced(old(State()), p).error
    {
      ghost var b := State();
      if |tokenStack| < 3 {
        return Err(StackUnderflow);
      }
      var right := tokenStack[|tokenStack| - 1];
      var left := tokenStack[|tokenStack| - 3];
      if left.value.None? || right.value.None? {
        return Err(MissingValue);
      }
      var t := temps.Fresh();
      tokenStack := tokenStack[..|tokenStack| - 3] + [OfNonTerminal(p.head).(value := Some(Var(t)))];
      irList := irList + [Arith(p.index, t, left.value.value, right.value.value)];
      ReduceKeepsFresh(b, p);
      return Ok(());
    }

    /** `whenAccept`: no action. */
    method WhenAccept(status: Status)
      ensures unchanged(this)
    {
    }

    /** `getIR`: the instructions emitted so far, every temporary in them already drawn. */
    function GetIR(): (ir: seq<Instruction>)
      reads this, temps
      requires Valid()
      ensures ProgBelow(ir, temps.next)
      ensures |ir| == |irList|
    {
      irList
    }
  }
}
