/**
 * The LR driver: a shift/reduce/accept automaton over a state stack and a
 * symbol stack kept in lockstep, notifying the registered observers before
 * each change it makes.
 */
module SyntaxAnalysis {
  import opened Results
  import opened Lexing
  import opened ParseTable
  import opened ParseSymbols
  import opened SymbolTables
  import IRGeneration

  /** What the observers are told: shift, reduce or accept, with the state on top before the step. */
  datatype Event =
    | ShiftEvent(status: Status, token: Option<Token>)
    | ReduceEvent(status: Status, production: Production)
    | AcceptEvent(status: Status)

  /** One observer call, in the order the driver makes them. */
  datatype Notification = Notified(observer: IRGeneration.IRGenerator, event: Event)

  /** The exceptions the driver raises. */
  datatype ParseError =
    | UnexpectedAction(action: Action)   // the table gives no shift, reduce or accept
    | EmptyStack                         // a reduction pops more states than there are

  datatype Outcome = Accepted | Failed(error: ParseError) | OutOfFuel

  /** The automaton's configuration: both stacks (top at the end), the lookahead and the unread tokens. */
  datatype Config = Config(statusStack: seq<Status>, symbolStack: seq<Symbol>, lookahead: Option<Token>, rest: seq<Token>)

  /** The stacks are in lockstep and never empty; the lookahead is null only once the tokens are exhausted. */
  ghost predicate Lockstep(c: Config)
  {
    |c.statusStack| >= 1 && |c.statusStack| == |c.symbolStack| && (c.lookahead.None? ==> c.rest == [])
  }

  /** The iterator's next token, or null once exhausted. */
  function NextToken(tokens: seq<Token>): Option<Token>
  {
    if |tokens| > 0 then Some(tokens[0]) else None
  }

  function Tail(tokens: seq<Token>): seq<Token>
  {
    if |tokens| > 0 then tokens[1..] else []
  }

  /** The configuration before the loop: `[init]`, `[Symbol(eof)]` and the first token. */
  function Initial(table: LRTable, tokens: seq<Token>): (c: Config)
    ensures Lockstep(c)
  {
    Config([table.init], [OfToken(Some(EofToken))], NextToken(tokens), Tail(tokens))
  }

  datatype StepResult = Next(config: Config, event: Event) | Stop(events: seq<Event>, outcome: Outcome)

  /** One iteration of the driver's loop. */
  function Step(table: LRTable, c: Config): (r: StepResult)
    requires Lockstep(c)
    ensures r.Next? ==> Lockstep(r.config)
  {
    var top := c.statusStack[|c.statusStack| - 1];
    match table.action(top, c.lookahead)
    case Shift(s) =>
      Next(Config(c.statusStack + [s], c.symbolStack + [OfToken(c.lookahead)], NextToken(c.rest), Tail(c.rest)),
           ShiftEvent(top, c.lookahead))
    case Reduce(p) =>
      if |p.body| >= |c.statusStack| then Stop([ReduceEvent(top, p)], Failed(EmptyStack))
      else
        var n := |c.statusStack| - |p.body|;
        var below := c.statusStack[..n];
        Next(Config(below + [table.goto(below[n - 1], p.head)], c.symbolStack[..n] + [OfNonTerminal(p.head)], c.lookahead, c.rest),
             ReduceEvent(top, p))
    case Accept => Stop([AcceptEvent(top)], Accepted)
    case Error => Stop([], Failed(UnexpectedAction(Error)))
  }

  /** The events and outcome of at most `fuel` iterations. */
  datatype Trace = Trace(events: seq<Event>, outcome: Outcome, final: Config)

  function Drive(table: LRTable, c: Config, fuel: nat): (t: Trace)
    requires Lockstep(c)
    ensures Lockstep(t.final)
    decreases fuel
  {
    if fuel == 0 then Trace([], OutOfFuel, c)
    else match Step(table, c)
      case Next(c', ev) =>
        var t := Drive(table, c', fuel - 1);
        Trace([ev] + t.events, t.outcome, t.final)
      case Stop(evs, o) => Trace(evs, o, c)
  }

  // ---------------------------------------------------------------------
  // Properties of a step.
  // ---------------------------------------------------------------------

  /**
   * A shift reports the pre-shift top state and the lookahead, pushes the
   * action's state and the lookahead's symbol, and advances to the next token.
   */
  lemma ShiftStep(table: LRTable, c: Config, s: Status)
    requires Lockstep(c)
    requires table.action(c.statusStack[|c.statusStack| - 1], c.lookahead) == Shift(s)
    ensures var r := Step(table, c);
      && r.Next?
      && r.event == ShiftEvent(c.statusStack[|c.statusStack| - 1], c.lookahead)
      && r.config.statusStack == c.statusStack + [s]
      && r.config.symbolStack == c.symbolStack + [OfToken(c.lookahead)]
      && (if c.rest == [] then r.config.lookahead == None && r.config.rest == []
          else r.config.lookahead == Some(c.rest[0]) && c.rest == [c.rest[0]] + r.config.rest)
  {
  }

  /**
   * A reduction is reported before any pop; it then removes `|body|` entries
   * from both stacks, keeps everything below them, and pushes the goto state
   * of the exposed top with the head symbol. Stack size changes by `1 - |body|`.
   */
  lemma ReduceStep(table: LRTable, c: Config, p: Production)
    requires Lockstep(c)
    requires table.action(c.statusStack[|c.statusStack| - 1], c.lookahead) == Reduce(p)
    ensures var r := Step(table, c);
      var n := |c.statusStack| - |p.body|;
      && (r.Next? <==> n >= 1)
      && (r.Next? ==>
            && r.event == ReduceEvent(c.statusStack[|c.statusStack| - 1], p)
            && |r.config.statusStack| == |c.statusStack| - |p.body| + 1
            && r.config.statusStack[..n] == c.statusStack[..n]
            && r.config.symbolStack[..n] == c.symbolStack[..n]
            && r.config.statusStack[n] == table.goto(c.statusStack[n - 1], p.head)
            && r.config.symbolStack[n] == OfNonTerminal(p.head)
            && r.config.lookahead == c.lookahead && r.config.rest == c.rest)
      && (r.Stop? ==> r == Stop([ReduceEvent(c.statusStack[|c.statusStack| - 1], p)], Failed(EmptyStack)))
  {
  }

  /** Any action other than shift, reduce or accept fails the run without notifying anyone. */
  lemma ErrorStep(table: LRTable, c: Config)
    requires Lockstep(c)
    requires table.action(c.statusStack[|c.statusStack| - 1], c.lookahead).Error?
    ensures Step(table, c) == Stop([], Failed(UnexpectedAction(Error)))
  {
  }

  // ---------------------------------------------------------------------
  // Properties of a whole run.
  // ---------------------------------------------------------------------

  predicate IsAccept(e: Event) { e.AcceptEvent? }

  /**
   * Accept is reported exactly once, as the last event, and only by an
   * accepted run: no event follows it and no other run reports it.
   */
  lemma {:induction false} AcceptIsLast(table: LRTable, c: Config, fuel: nat)
    requires Lockstep(c)
    ensures var t := Drive(table, c, fuel);
      && (t.outcome == Accepted <==> |t.events| > 0 && IsAccept(t.events[|t.events| - 1]))
      && (forall i :: 0 <= i < |t.events| - 1 ==> !IsAccept(t.events[i]))
    decreases fuel
  {
    if fuel > 0 {
      match Step(table, c)
      case Next(c', ev) =>
        AcceptIsLast(table, c', fuel - 1);
        var t' := Drive(table, c', fuel - 1);
        assert !IsAccept(ev);
        var evs := [ev] + t'.events;
        assert forall i :: 1 <= i < |evs| ==> evs[i] == t'.events[i - 1];
      case Stop(_, _) =>
    }
  }

  /** The tokens that shift events carry, in order (a null lookahead carries none). */
  function Shifted(events: seq<Event>): seq<Token>
  {
    if |events| == 0 then []
    else (match events[0]
          case ShiftEvent(_, Some(t)) => [t]
          case _ => [])
         + Shifted(events[1..])
  }

  /** The tokens not yet shifted: the lookahead, then the unread ones. */
  function Unshifted(c: Config): seq<Token>
  {
    (if c.lookahead.Some? then [c.lookahead.value] else []) + c.rest
  }

  /**
   * The driver consumes its input in order: the tokens reported by the shift
   * events followed by the tokens still unshifted are exactly the tokens it
   * started with.
   */
  lemma {:induction false} ShiftsConsumeInOrder(table: LRTable, c: Config, fuel: nat)
    requires Lockstep(c)
    ensures var t := Drive(table, c, fuel);
      Shifted(t.events) + Unshifted(t.final) == Unshifted(c)
    decreases fuel
  {
    if fuel > 0 {
      match Step(table, c)
      case Next(c', ev) =>
        ShiftsConsumeInOrder(table, c', fuel - 1);
        var t' := Drive(table, c', fuel - 1);
        assert ([ev] + t'.events)[1..] == t'.events;
        if ev.ShiftEvent? {
          assert c.rest == [] ==> Unshifted(c') == [];
          assert c.rest != [] ==> c.rest == [c.rest[0]] + c.rest[1..];
        }
      case Stop(evs, _) =>
        assert Shifted(evs) == [] by {
          if |evs| > 0 { assert evs[1..] == []; }
        }
    }
  }

  /** From the initial configuration, the shifted tokens are a prefix of the input. */
  lemma ShiftedPrefixOfInput(table: LRTable, tokens: seq<Token>, fuel: nat)
    ensures var t := Drive(table, Initial(table, tokens), fuel);
      Shifted(t.events) + Unshifted(t.final) == tokens
  {
    ShiftsConsumeInOrder(table, Initial(table, tokens), fuel);
    if |tokens| > 0 {
      assert tokens == [tokens[0]] + tokens[1..];
    }
  }

  /** Every observer hears `ev`, in registration order. */
  function Broadcast(observers: seq<IRGeneration.IRGenerator>, ev: Event): (ns: seq<Notification>)
    ensures |ns| == |observers|
    ensures forall i :: 0 <= i < |ns| ==> ns[i] == Notified(observers[i], ev)
  {
    seq(|observers|, i requires 0 <= i < |observers| => Notified(observers[i], ev))
  }

  /** Every event broadcast in turn. */
  function BroadcastAll(observers: seq<IRGeneration.IRGenerator>, events: seq<Event>): seq<Notification>
  {
    if |events| == 0 then [] else Broadcast(observers, events[0]) + BroadcastAll(observers, events[1..])
  }

  lemma {:induction false} BroadcastAllAppend(observers: seq<IRGeneration.IRGenerator>, events: seq<Event>, more: seq<Event>)
    ensures BroadcastAll(observers, events + more) == BroadcastAll(observers, events) + BroadcastAll(observers, more)
  {
    if |events| > 0 {
      assert (events + more)[1..] == events[1..] + more;
      BroadcastAllAppend(observers, events[1..], more);
    } else {
      assert events + more == more;
    }
  }

  class SyntaxAnalyzer {
    const symbolTable: SymbolTable
    var observers: seq<IRGeneration.IRGenerator>
    var tokens: seq<Token>
    var lrTable: LRTable
    /** Every observer call made so far, in order. */
    var notifications: seq<Notification>

    constructor (symbolTable: SymbolTable, table: LRTable)
      ensures this.symbolTable == symbolTable && lrTable == table
      ensures observers == [] && tokens == [] && notifications == []
    {
      this.symbolTable := symbolTable;
      observers := [];
      tokens := [];
      lrTable := table;
      notifications := [];
    }

    /** `registerObserver`: appends the observer and hands it the analyzer's symbol table. */
    method RegisterObserver(observer: IRGeneration.IRGenerator)
      modifies this`observers, observer`table
      ensures observers == old(observers) + [observer]
      ensures observer.table == symbolTable
    {
      observers := observers + [observer];
      observer.SetSymbolTable(symbolTable);
    }

    /** `callWhenInShift`, `callWhenInReduce`, `callWhenInAccept`: notifies each observer in order. */
    method Notify(ev: Event)
      modifies this`notifications
      ensures notifications == old(notifications) + Broadcast(observers, ev)
    {
      for i := 0 to |observers|
        invariant notifications == old(notifications) + Broadcast(observers[..i], ev)
      {
        assert Broadcast(observers[..i + 1], ev) == Broadcast(observers[..i], ev) + [Notified(observers[i], ev)];
        notifications := notifications + [Notified(observers[i], ev)];
      }
      assert observers[..|observers|] == observers;
    }

    /** `loadTokens`: keeps the tokens in iteration order. */
    method LoadTokens(input: seq<Token>)
      modifies this`tokens
      ensures tokens == input
    {
      tokens := [];
      for i := 0 to |input|
        invariant tokens == input[..i]
      {
        tokens := tokens + [input[i]];
      }
    }

    method LoadLRTable(table: LRTable)
      modifies this`lrTable
      ensures lrTable == table
    {
      lrTable := table;
    }

    /**
     * `run`, for at most `fuel` iterations of its loop: its outcome and the
     * observer calls it makes are those of the automaton's trace. The token
     * iterator is the sequence of tokens it has yet to return.
     */
    method Run(fuel: nat) returns (outcome: Outcome)
      modifies this`notifications
      ensures var t := Drive(lrTable, Initial(lrTable, tokens), fuel);
        outcome == t.outcome && notifications == old(notifications) + BroadcastAll(observers, t.events)
    {
      var statusStack := [lrTable.init];
      var symbolStack := [OfToken(Some(EofToken))];
      var currentToken := NextToken(tokens);
      var c := Config(statusStack, symbolStack, currentToken, Tail(tokens));
      ghost var start, events := notifications, [];
      ghost var whole := Drive(lrTable, c, fuel);
      var left := fuel;
      while left > 0
        invariant Tracing(lrTable, whole, events, c, left)
        invariant Logged(start, notifications, observers, events)
      {
        ghost var before := notifications;
        var r := Iterate(c);
        Logging(start, before, observers, events, StepEvents(r));
        if r.Stop? {
          TracingStop(lrTable, whole, events, c, left);
          return r.outcome;
        }
        TracingNext(lrTable, whole, events, c, left);
        events, c, left := events + StepEvents(r), r.config, left - 1;
      }
      TracingOut(lrTable, whole, events, c);
      return OutOfFuel;
    }

    /** One iteration of `run`'s loop, notifying the observers before it changes the stacks. */
    method Iterate(c: Config) returns (r: StepResult)
      requires Lockstep(c)
      modifies this`notifications
      ensures r == Step(lrTable, c)
      ensures notifications == old(notifications) + BroadcastAll(observers, StepEvents(r))
    {
      var statusStack, symbolStack := c.statusStack, c.symbolStack;
      var currentStatus := statusStack[|statusStack| - 1];
      var action := lrTable.action(currentStatus, c.lookahead);
      match action {
        case Shift(s) =>
          var ev := ShiftEvent(currentStatus, c.lookahead);
          Notify(ev);
          statusStack := statusStack + [s];
          symbolStack := symbolStack + [OfToken(c.lookahead)];
          r := Next(Config(statusStack, symbolStack, NextToken(c.rest), Tail(c.rest)), ev);
        case Reduce(p) =>
          r := ReduceIteration(c, p);
        case Accept =>
          var ev := AcceptEvent(currentStatus);
          Notify(ev);
          r := Stop([ev], Accepted);
        case Error =>
          r := Stop([], Failed(UnexpectedAction(action)));
      }
      OneEvent(observers, StepEvents(r));
    }

    /** The reduce branch of `run`'s loop: notify, pop the body from both stacks, then push the goto state and the head. */
    method ReduceIteration(c: Config, p: Production) returns (r: StepResult)
      requires Lockstep(c) && lrTable.action(c.statusStack[|c.statusStack| - 1], c.lookahead) == Reduce(p)
      modifies this`notifications
      ensures r == Step(lrTable, c)
      ensures notifications == old(notifications) + Broadcast(observers, ReduceEvent(c.statusStack[|c.statusStack| - 1], p))
    {
      var ev := ReduceEvent(c.statusStack[|c.statusStack| - 1], p);
      Notify(ev);
      var ok, statusStack, symbolStack := PopBoth(c.statusStack, c.symbolStack, |p.body|);
      if !ok {
        return Stop([ev], Failed(EmptyStack));
      }
      var topStatus := statusStack[|statusStack| - 1];
      statusStack := statusStack + [lrTable.goto(topStatus, p.head)];
      symbolStack := symbolStack + [OfNonTerminal(p.head)];
      r := Next(Config(statusStack, symbolStack, c.lookahead, c.rest), ev);
    }
  }

  /** The events a single step reports. */
  function StepEvents(r: StepResult): seq<Event>
  {
    if r.Next? then [r.event] else r.events
  }

  /**
   * The pops of a reduction: `n` pops from both stacks, then a peek. It fails
   * (an empty-stack exception) exactly when fewer than `n + 1` entries are there.
   */
  method PopBoth(statusStack: seq<Status>, symbolStack: seq<Symbol>, n: nat)
    returns (ok: bool, statuses: seq<Status>, symbols: seq<Symbol>)
    requires |statusStack| == |symbolStack|
    ensures ok <==> n < |statusStack|
    ensures ok ==> statuses == statusStack[..|statusStack| - n] && symbols == symbolStack[..|symbolStack| - n]
  {
    statuses, symbols := statusStack, symbolStack;
    var i := 0;
    while i < n
      invariant 0 <= i <= n && i <= |statusStack|
      invariant statuses == statusStack[..|statusStack| - i] && symbols == symbolStack[..|symbolStack| - i]
    {
      if |statuses| == 0 {
        return false, statuses, symbols;
      }
      statuses := statuses[..|statuses| - 1];
      symbols := symbols[..|symbols| - 1];
      i := i + 1;
    }
    ok := |statuses| > 0;
  }

  /** Continuing from `c` with `fuel` iterations, after `events`, completes the whole trace. */
  ghost predicate Tracing(table: LRTable, whole: Trace, events: seq<Event>, c: Config, fuel: nat)
  {
    && Lockstep(c)
    && whole.events == events + Drive(table, c, fuel).events
    && whole.outcome == Drive(table, c, fuel).outcome
  }

  /** The observers have heard `events`: `now` is `before` followed by their broadcast. */
  ghost predicate Logged(before: seq<Notification>, now: seq<Notification>, observers: seq<IRGeneration.IRGenerator>, events: seq<Event>)
  {
    now == before + BroadcastAll(observers, events)
  }

  lemma Logging(before: seq<Notification>, now: seq<Notification>, observers: seq<IRGeneration.IRGenerator>, events: seq<Event>, more: seq<Event>)
    requires Logged(before, now, observers, events)
    ensures Logged(before, now + BroadcastAll(observers, more), observers, events + more)
  {
    BroadcastAllAppend(observers, events, more);
  }

  /** One iteration that continues the run keeps the trace invariant. */
  lemma TracingNext(table: LRTable, whole: Trace, events: seq<Event>, c: Config, fuel: nat)
    requires Tracing(table, whole, events, c, fuel) && fuel > 0 && Step(table, c).Next?
    ensures Tracing(table, whole, events + [Step(table, c).event], Step(table, c).config, fuel - 1)
  {
    var r := Step(table, c);
    var t' := Drive(table, r.config, fuel - 1);
    assert Drive(table, c, fuel).events == [r.event] + t'.events;
    assert events + ([r.event] + t'.events) == (events + [r.event]) + t'.events;
  }

  /** One iteration that stops the run completes the trace. */
  lemma TracingStop(table: LRTable, whole: Trace, events: seq<Event>, c: Config, fuel: nat)
    requires Tracing(table, whole, events, c, fuel) && fuel > 0 && Step(table, c).Stop?
    ensures whole.events == events + Step(table, c).events && whole.outcome == Step(table, c).outcome
  {
  }

  /** A loop that ran out of iterations has completed the trace. */
  lemma TracingOut(table: LRTable, whole: Trace, events: seq<Event>, c: Config)
    requires Tracing(table, whole, events, c, 0)
    ensures whole.outcome == OutOfFuel && whole.events == events
  {
    assert events + [] == events;
  }

  lemma OneEvent(observers: seq<IRGeneration.IRGenerator>, events: seq<Event>)
    requires |events| <= 1
    ensures BroadcastAll(observers, events) == if events == [] then [] else Broadcast(observers, events[0])
  {
    if |events| == 1 {
      assert BroadcastAll(observers, events) == Broadcast(observers, events[0]) + BroadcastAll(observers, []);
    }
  }
}
