/**
 * The parse-stack element: a token or a nonterminal, with the semantic value
 * and type slots the observers fill in (both null when constructed).
 */
module ParseSymbols {
  import opened Results
  import opened Lexing
  import opened ParseTable
  import opened IRCode
  import opened SymbolTables

  /** The two reference fields of the source, at most one of them set. */
  datatype Symbol = Symbol(
    token: Option<Token>,
    nonTerminal: Option<NonTerminal>,
    ty: Option<SourceCodeType>,
    value: Option<IRValue>)
  {
    predicate IsToken() { token.Some? }
    predicate IsNonTerminal() { nonTerminal.Some? }
    function GetToken(): Option<Token> { token }
    function GetNonTerminal(): Option<NonTerminal> { nonTerminal }
  }

  /** `new Symbol(token)`; the token may be null. */
  function OfToken(t: Option<Token>): (s: Symbol)
    ensures s.GetToken() == t && s.GetNonTerminal() == None
    ensures s.IsToken() <==> t.Some?
    ensures !s.IsNonTerminal()
    ensures s.value == None && s.ty == None
  {
    Symbol(t, None, None, None)
  }

  /** `new Symbol(nonTerminal)`. */
  function OfNonTerminal(n: NonTerminal): (s: Symbol)
    ensures s.GetNonTerminal() == Some(n) && s.GetToken() == None
    ensures s.IsNonTerminal() && !s.IsToken()
    ensures s.value == None && s.ty == None
  {
    Symbol(None, Some(n), None, None)
  }

  /** A symbol made from a token is never one made from a nonterminal, whatever values are attached later. */
  lemma ConstructorsDisjoint(t: Option<Token>, n: NonTerminal, v1: Option<IRValue>, v2: Option<IRValue>)
    ensures OfToken(t).(value := v1) != OfNonTerminal(n).(value := v2)
  {
    assert OfNonTerminal(n).(value := v2).IsNonTerminal();
  }

  /** Attaching a value keeps what the symbol stands for. */
  lemma AttachKeepsKind(s: Symbol, v: Option<IRValue>)
    ensures s.(value := v).IsToken() == s.IsToken() && s.(value := v).IsNonTerminal() == s.IsNonTerminal()
    ensures s.(value := v).GetToken() == s.GetToken() && s.(value := v).GetNonTerminal() == s.GetNonTerminal()
  {
  }
}
