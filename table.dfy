/**
 * The parsing table the LR driver consumes: states, productions, actions and
 * the action and goto lookups. The table is built elsewhere and supplied as a
 * finished value; only what the driver's call sites use is modelled.
 */
module ParseTable {
  import opened Results
  import opened Lexing

  datatype NonTerminal = NonTerminal(name: string)

  /** A grammar symbol in a production body. */
  datatype Term = Terminal(kind: TokenKind) | NonTerminalTerm(nt: NonTerminal)

  /** A production: its index in the grammar, its head and its body. */
  datatype Production = Production(index: int, head: NonTerminal, body: seq<Term>)

  /** An automaton state, known only by its identity. */
  datatype Status = Status(id: nat)

  datatype Action = Shift(status: Status) | Reduce(production: Production) | Accept | Error

  /**
   * `getInit`, `getAction` and `getGoto`. The lookahead passed to the action
   * lookup is None once the token list is exhausted (a Java null).
   */
  datatype LRTable = LRTable(
    init: Status,
    action: (Status, Option<Token>) -> Action,
    goto: (Status, NonTerminal) -> Status)
}
