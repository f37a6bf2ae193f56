/**
 * The lexical analyzer: a position-indexed scan over the source text that
 * skips whitespace, reads maximal identifier and digit runs, maps single
 * punctuation characters to tokens, appends one end-of-input token and
 * registers every non-keyword identifier in the symbol table.
 */
module Lexing {
  import opened Results
  import opened SymbolTables

  /** A token category, named as in the kind table (`id`, `IntConst`, `+`, `Semicolon`, `$`, keywords). */
  datatype TokenKind = Kind(name: string)

  /** A token: its kind and its literal text (empty for tokens made by `Token.simple`). */
  datatype Token = Token(kind: TokenKind, text: string)

  const IdKind: TokenKind := Kind("id")
  const IntConstKind: TokenKind := Kind("IntConst")
  const EofKind: TokenKind := Kind("$")

  /** `Token.simple(kind)`: a token without text. */
  function Simple(kind: TokenKind): Token { Token(kind, "") }

  /** `Token.eof()`. */
  const EofToken: Token := Simple(EofKind)

  /** The scanner's only error: a character that starts no token. */
  datatype LexError = UnrecognizedCharacter(c: char, pos: nat)

  // ASCII readings of Java's Character.isWhitespace, isLetter and isDigit.

  predicate IsWhitespace(c: char)
  {
    c == ' ' || c == '\t' || c == '\n' || c == '\r' || c == '\U{B}' || c == '\U{C}'
    || ('\U{1C}' <= c <= '\U{1F}')
  }

  predicate IsLetter(c: char)
  {
    ('a' <= c <= 'z') || ('A' <= c <= 'Z')
  }

  predicate IsDigit(c: char)
  {
    '0' <= c <= '9'
  }

  /** Characters that continue an identifier: letters, digits and `_`. */
  predicate IsIdentChar(c: char)
  {
    IsLetter(c) || IsDigit(c) || c == '_'
  }

  /** The kind a punctuation character maps to, if it is one of `+ - * / ( ) = , ;`. */
  function PunctKind(c: char): (k: Option<TokenKind>)
    ensures k.Some? ==> !IsWhitespace(c) && !IsLetter(c) && !IsDigit(c) && c != '_'
    ensures k.Some? <==> c in "+-*/()=,;"
    ensures k.Some? ==> k.value == (if c == ';' then Kind("Semicolon") else Kind([c]))
  {
    match c
    case '+' => Some(Kind("+"))
    case '-' => Some(Kind("-"))
    case '*' => Some(Kind("*"))
    case '/' => Some(Kind("/"))
    case '(' => Some(Kind("("))
    case ')' => Some(Kind(")"))
    case '=' => Some(Kind("="))
    case ',' => Some(Kind(","))
    case ';' => Some(Kind("Semicolon"))
    case _ => None
  }

  /** End of the maximal run starting at `pos` whose characters satisfy `IsIdentChar` (digits only when `digitsOnly`). */
  function RunEnd(s: string, pos: nat, digitsOnly: bool): (e: nat)
    requires pos <= |s|
    ensures pos <= e <= |s|
    ensures forall i :: pos <= i < e ==> (if digitsOnly then IsDigit(s[i]) else IsIdentChar(s[i]))
    ensures e < |s| ==> !(if digitsOnly then IsDigit(s[e]) else IsIdentChar(s[e]))
    decreases |s| - pos
  {
    if pos < |s| && (if digitsOnly then IsDigit(s[pos]) else IsIdentChar(s[pos]))
    then RunEnd(s, pos + 1, digitsOnly)
    else pos
  }

  /** What the scan produced: the tokens appended, and the error that stopped it, if any. */
  datatype Scanned = Scanned(tokens: seq<Token>, error: Option<LexError>)

  function Prepend(t: Token, rest: Scanned): Scanned
  {
    Scanned([t] + rest.tokens, rest.error)
  }

  /** The tokens the loop of `run` appends from position `pos` on (the end-of-input token excluded). */
  function ScanFrom(s: string, pos: nat, allowed: set<string>): (r: Scanned)
    requires pos <= |s|
    ensures |r.tokens| <= |s| - pos
    ensures r.error.Some? ==> pos <= r.error.value.pos < |s|
    decreases |s| - pos
  {
    if pos == |s| then Scanned([], None)
    else
      var c := s[pos];
      if IsWhitespace(c) then ScanFrom(s, pos + 1, allowed)
      else if IsLetter(c) then
        var e := RunEnd(s, pos, false);
        var id := s[pos..e];
        var tok := if id in allowed then Simple(Kind(id)) else Token(IdKind, id);
        Prepend(tok, ScanFrom(s, e, allowed))
      else if IsDigit(c) then
        var e := RunEnd(s, pos, true);
        Prepend(Token(IntConstKind, s[pos..e]), ScanFrom(s, e, allowed))
      else match PunctKind(c)
        case Some(k) => Prepend(Simple(k), ScanFrom(s, pos + 1, allowed))
        case None => Scanned([], Some(UnrecognizedCharacter(c, pos)))
  }

  /** The whole scan: at most one token per character, and an error, if any, at a position inside the text. */
  function Scan(s: string, allowed: set<string>): (r: Scanned)
    ensures |r.tokens| <= |s|
    ensures r.error.Some? ==> r.error.value.pos < |s|
  {
    ScanFrom(s, 0, allowed)
  }

  /**
   * An identifier token made by `Token.normal(id, text)`. (An identifier that
   * is itself listed in the kind table, `id` included, becomes a text-less
   * keyword token instead.)
   */
  predicate IsIdToken(t: Token)
  {
    t.kind == IdKind && t.text != ""
  }

  /** The identifier texts the scan registers: the texts of its identifier tokens, in order. */
  function IdTexts(tokens: seq<Token>): (ids: seq<string>)
    ensures forall i :: 0 <= i < |tokens| && IsIdToken(tokens[i]) ==> tokens[i].text in ids
    ensures forall t :: t in ids ==> exists i :: 0 <= i < |tokens| && IsIdToken(tokens[i]) && tokens[i].text == t
  {
    if |tokens| == 0 then []
    else
      var rest := IdTexts(tokens[1..]);
      assert forall i :: 1 <= i < |tokens| ==> tokens[i] == tokens[1..][i - 1];
      if IsIdToken(tokens[0]) then [tokens[0].text] + rest else rest
  }

  /** The symbol table after `add` of every text in `texts`, in order. */
  function AddAll(entries: map<string, Entry>, texts: seq<string>): map<string, Entry>
    decreases |texts|
  {
    if |texts| == 0 then entries
    else AddAll(AddEntry(entries, texts[0]), texts[1..])
  }

  /**
   * Adding a sequence of texts: the keys become the old keys plus the texts,
   * old entries are kept, and each new key gets an entry with no type.
   */
  lemma {:induction false} AddAllSpec(entries: map<string, Entry>, texts: seq<string>)
    ensures var m := AddAll(entries, texts);
      && (forall t :: t in texts ==> t in m)
      && (forall k :: k in entries ==> k in m)
      && (forall k :: k in m ==> k in entries || k in texts)
      && (forall k :: k in m ==> m[k] == if k in entries then entries[k] else Entry(k, None))
    decreases |texts|
  {
    if |texts| > 0 {
      AddAllSpec(AddEntry(entries, texts[0]), texts[1..]);
      assert texts == [texts[0]] + texts[1..];
    }
  }

  // ---------------------------------------------------------------------
  // Properties of the scan.
  // ---------------------------------------------------------------------

  /** A token the scan can produce, as classified by its text. */
  ghost predicate WellFormedToken(t: Token, allowed: set<string>)
  {
    if t.text == "" then
      (t.kind.name in allowed && |t.kind.name| > 0 && IsLetter(t.kind.name[0])
        && forall i :: 0 <= i < |t.kind.name| ==> IsIdentChar(t.kind.name[i]))
      || t.kind.name in ["+", "-", "*", "/", "(", ")", "=", ",", "Semicolon"]
    else
      (t.kind == IdKind && t.text !in allowed && IsLetter(t.text[0])
        && forall i :: 0 <= i < |t.text| ==> IsIdentChar(t.text[i]))
      || (t.kind == IntConstKind && forall i :: 0 <= i < |t.text| ==> IsDigit(t.text[i]))
  }

  /**
   * Every token the scan appends is a keyword, a punctuation token, an `id`
   * token carrying a non-keyword identifier, or an `IntConst` token carrying
   * a non-empty run of decimal digits; none of them is the end-of-input token.
   */
  lemma {:induction false} ScanTokensWellFormed(s: string, pos: nat, allowed: set<string>)
    requires pos <= |s|
    ensures forall i :: 0 <= i < |ScanFrom(s, pos, allowed).tokens| ==>
      WellFormedToken(ScanFrom(s, pos, allowed).tokens[i], allowed)
      && ScanFrom(s, pos, allowed).tokens[i] != EofToken
    decreases |s| - pos
  {
    if pos < |s| {
      var c := s[pos];
      if IsWhitespace(c) {
        ScanTokensWellFormed(s, pos + 1, allowed);
      } else if IsLetter(c) {
        ScanTokensWellFormed(s, RunEnd(s, pos, false), allowed);
      } else if IsDigit(c) {
        ScanTokensWellFormed(s, RunEnd(s, pos, true), allowed);
      } else if PunctKind(c).Some? {
        ScanTokensWellFormed(s, pos + 1, allowed);
      }
    }
  }

  /** The characters a token stands for in the source text. */
  function Spelling(t: Token): string
  {
    if t.text != "" then t.text
    else if t.kind == Kind("Semicolon") then ";"
    else t.kind.name
  }

  function SpellAll(tokens: seq<Token>): string
  {
    if |tokens| == 0 then "" else Spelling(tokens[0]) + SpellAll(tokens[1..])
  }

  /** The source text with every whitespace character removed. */
  function NonWhitespace(s: string): string
  {
    if |s| == 0 then ""
    else (if IsWhitespace(s[0]) then "" else [s[0]]) + NonWhitespace(s[1..])
  }

  lemma {:induction false} NonWhitespaceSplit(s: string, i: nat)
    requires i <= |s|
    ensures NonWhitespace(s) == NonWhitespace(s[..i]) + NonWhitespace(s[i..])
  {
    if i > 0 {
      assert s[1..][..i - 1] == s[..i][1..];
      assert s[1..][i - 1..] == s[i..];
      NonWhitespaceSplit(s[1..], i - 1);
    } else {
      assert s[..0] == "";
      assert s[0..] == s;
    }
  }

  /** Splitting the suffix from `p` at `q`. */
  lemma NonWhitespaceAt(s: string, p: nat, q: nat)
    requires p <= q <= |s|
    ensures NonWhitespace(s[p..]) == NonWhitespace(s[p..q]) + NonWhitespace(s[q..])
  {
    NonWhitespaceSplit(s[p..], q - p);
    assert s[p..][..q - p] == s[p..q];
    assert s[p..][q - p..] == s[q..];
  }

  lemma {:induction false} NonWhitespaceOfRun(w: string)
    requires forall i :: 0 <= i < |w| ==> !IsWhitespace(w[i])
    ensures NonWhitespace(w) == w
  {
    if |w| > 0 {
      NonWhitespaceOfRun(w[1..]);
      assert w == [w[0]] + w[1..];
    }
  }

  lemma SpellPrepend(t: Token, rest: Scanned)
    ensures SpellAll(Prepend(t, rest).tokens) == Spelling(t) + SpellAll(rest.tokens)
  {
    assert ([t] + rest.tokens)[1..] == rest.tokens;
  }

  /**
   * The text from `pos` on holds no identifier spelled `Semicolon` (checked
   * at every letter that does not follow a letter, which includes every
   * place the scan starts an identifier).
   */
  ghost predicate NoSemicolonWord(s: string, pos: nat)
    requires pos <= |s|
  {
    && (pos < |s| && IsLetter(s[pos]) ==> WordIsNotSemicolon(s, pos))
    && forall i :: pos < i < |s| && IsLetter(s[i]) && !IsLetter(s[i - 1]) ==> WordIsNotSemicolon(s, i)
  }

  /** The identifier run starting at `i` is not spelled `Semicolon`. */
  ghost predicate WordIsNotSemicolon(s: string, i: nat)
    requires i <= |s|
  {
    s[i..RunEnd(s, i, false)] != "Semicolon"
  }

  /** The condition carries over to where the scan goes on, unless that is inside a run of letters. */
  lemma NoSemicolonWordFrom(s: string, pos: nat, e: nat)
    requires pos < e <= |s| && NoSemicolonWord(s, pos)
    requires e < |s| && IsLetter(s[e]) ==> !IsLetter(s[e - 1])
    ensures NoSemicolonWord(s, e)
  {
  }

  /**
   * Lexing loses no character: when the scan succeeds, the tokens spelled
   * back one after another give exactly the non-whitespace characters of the
   * input. The kind table names the `;` token `Semicolon`, so an identifier
   * spelled `Semicolon` becomes that keyword token and reads back as `;`:
   * when the table lists the name, the text must not contain that word.
   */
  lemma {:induction false} ScanSpellsInput(s: string, pos: nat, allowed: set<string>)
    requires pos <= |s|
    requires "Semicolon" in allowed ==> NoSemicolonWord(s, pos)
    requires ScanFrom(s, pos, allowed).error.None?
    ensures SpellAll(ScanFrom(s, pos, allowed).tokens) == NonWhitespace(s[pos..])
    decreases |s| - pos
  {
    if pos == |s| {
      assert s[pos..] == "";
    } else {
      var c := s[pos];
      if "Semicolon" in allowed && !(IsLetter(c) || IsDigit(c)) {
        NoSemicolonWordFrom(s, pos, pos + 1);
      }
      if IsWhitespace(c) {
        ScanSpellsInput(s, pos + 1, allowed);
        NonWhitespaceAt(s, pos, pos + 1);
        assert NonWhitespace(s[pos..pos + 1]) == "" by {
          assert s[pos..pos + 1] == [c];
        }
      } else if IsLetter(c) || IsDigit(c) {
        SpellRun(s, pos, allowed);
      } else {
        var k := PunctKind(c).value;
        ScanSpellsInput(s, pos + 1, allowed);
        SpellPrepend(Simple(k), ScanFrom(s, pos + 1, allowed));
        NonWhitespaceAt(s, pos, pos + 1);
        assert NonWhitespace(s[pos..pos + 1]) == [c] by {
          assert s[pos..pos + 1] == [c];
        }
      }
    }
  }

  lemma {:induction false} SpellRun(s: string, pos: nat, allowed: set<string>)
    requires pos < |s| && (IsLetter(s[pos]) || IsDigit(s[pos]))
    requires "Semicolon" in allowed ==> NoSemicolonWord(s, pos)
    requires ScanFrom(s, pos, allowed).error.None?
    ensures SpellAll(ScanFrom(s, pos, allowed).tokens) == NonWhitespace(s[pos..])
    decreases |s| - pos, 0
  {
    var letter := IsLetter(s[pos]);
    var e := RunEnd(s, pos, !letter);
    var w := s[pos..e];
    var tok := if !letter then Token(IntConstKind, w) else if w in allowed then Simple(Kind(w)) else Token(IdKind, w);
    assert ScanFrom(s, pos, allowed) == Prepend(tok, ScanFrom(s, e, allowed));
    if "Semicolon" in allowed {
      if letter {
        assert e == RunEnd(s, pos, false);
        assert WordIsNotSemicolon(s, pos);
      }
      NoSemicolonWordFrom(s, pos, e);
    }
    ScanSpellsInput(s, e, allowed);
    SpellPrepend(tok, ScanFrom(s, e, allowed));
    NonWhitespaceAt(s, pos, e);
    NonWhitespaceOfRun(w);
    assert Spelling(tok) == w;
  }

  /**
   * Why `ScanSpellsInput` needs its condition: with `Semicolon` in the kind
   * table, the identifier `Semicolon` becomes the `;` token and reads back as
   * `;`, not as the nine letters it was written with.
   */
  lemma SemicolonWordReadsAsSemicolon()
    ensures Scan("Semicolon", {"Semicolon"}) == Scanned([Simple(Kind("Semicolon"))], None)
    ensures SpellAll(Scan("Semicolon", {"Semicolon"}).tokens) == ";"
  {
    var s := "Semicolon";
    assert RunEnd(s, 0, false) == 9 by {
      assert RunEnd(s, 9, false) == 9;
    }
    assert s[0..9] == "Semicolon";
    assert ScanFrom(s, 9, {"Semicolon"}) == Scanned([], None);
  }

  /**
   * The scan stops with an error exactly at a character that is neither
   * whitespace, a letter, a digit nor one of the nine punctuation characters
   * (a leading `_` included).
   */
  lemma {:induction false} ScanErrorIsUnrecognized(s: string, pos: nat, allowed: set<string>)
    requires pos <= |s|
    requires ScanFrom(s, pos, allowed).error.Some?
    ensures var e := ScanFrom(s, pos, allowed).error.value;
      pos <= e.pos < |s| && s[e.pos] == e.c
      && !IsWhitespace(e.c) && !IsLetter(e.c) && !IsDigit(e.c) && PunctKind(e.c).None?
    decreases |s| - pos
  {
    var c := s[pos];
    if IsWhitespace(c) {
      ScanErrorIsUnrecognized(s, pos + 1, allowed);
    } else if IsLetter(c) {
      ScanErrorIsUnrecognized(s, RunEnd(s, pos, false), allowed);
    } else if IsDigit(c) {
      ScanErrorIsUnrecognized(s, RunEnd(s, pos, true), allowed);
    } else if PunctKind(c).Some? {
      ScanErrorIsUnrecognized(s, pos + 1, allowed);
    }
  }

  /** A text made only of whitespace yields no token and no error. */
  lemma {:induction false} WhitespaceYieldsNothing(s: string, pos: nat, allowed: set<string>)
    requires pos <= |s|
    requires forall i :: pos <= i < |s| ==> IsWhitespace(s[i])
    ensures ScanFrom(s, pos, allowed) == Scanned([], None)
    decreases |s| - pos
  {
    if pos < |s| {
      WhitespaceYieldsNothing(s, pos + 1, allowed);
    }
  }

  /** The loop invariant of `run`: the tokens found so far followed by the scan of the rest make up the whole scan. */
  ghost predicate ScanSoFar(s: string, allowed: set<string>, found: seq<Token>, pos: nat)
    requires pos <= |s|
  {
    Scan(s, allowed) == Scanned(found + ScanFrom(s, pos, allowed).tokens, ScanFrom(s, pos, allowed).error)
  }

  /** One token found between `p` and `q` keeps the loop invariant. */
  lemma Advance(s: string, allowed: set<string>, found: seq<Token>, p: nat, q: nat, tok: Token)
    requires p < q <= |s|
    requires ScanSoFar(s, allowed, found, p)
    requires ScanFrom(s, p, allowed) == Prepend(tok, ScanFrom(s, q, allowed))
    ensures ScanSoFar(s, allowed, found + [tok], q)
  {
    assert found + ([tok] + ScanFrom(s, q, allowed).tokens) == (found + [tok]) + ScanFrom(s, q, allowed).tokens;
  }

  lemma WhitespaceStep(s: string, allowed: set<string>, found: seq<Token>, pos: nat)
    requires pos < |s| && IsWhitespace(s[pos])
    requires ScanSoFar(s, allowed, found, pos)
    ensures ScanSoFar(s, allowed, found, pos + 1)
  {
  }

  lemma RunStep(s: string, allowed: set<string>, found: seq<Token>, pos: nat, e: nat, letter: bool, tok: Token)
    requires pos < |s| && (if letter then IsLetter(s[pos]) else !IsLetter(s[pos]) && IsDigit(s[pos]))
    requires e == RunEnd(s, pos, !letter)
    requires tok == if !letter then Token(IntConstKind, s[pos..e])
      else if s[pos..e] in allowed then Simple(Kind(s[pos..e])) else Token(IdKind, s[pos..e])
    requires ScanSoFar(s, allowed, found, pos)
    ensures pos < e && ScanSoFar(s, allowed, found + [tok], e)
  {
    assert ScanFrom(s, pos, allowed) == Prepend(tok, ScanFrom(s, e, allowed));
    Advance(s, allowed, found, pos, e, tok);
  }

  lemma PunctStep(s: string, allowed: set<string>, found: seq<Token>, pos: nat, k: TokenKind)
    requires pos < |s| && !IsWhitespace(s[pos]) && !IsLetter(s[pos]) && !IsDigit(s[pos])
    requires PunctKind(s[pos]) == Some(k)
    requires ScanSoFar(s, allowed, found, pos)
    ensures ScanSoFar(s, allowed, found + [Simple(k)], pos + 1)
  {
    assert ScanFrom(s, pos, allowed) == Prepend(Simple(k), ScanFrom(s, pos + 1, allowed));
    Advance(s, allowed, found, pos, pos + 1, Simple(k));
  }

  lemma FailStep(s: string, allowed: set<string>, found: seq<Token>, pos: nat)
    requires pos < |s| && !IsWhitespace(s[pos]) && !IsLetter(s[pos]) && !IsDigit(s[pos])
    requires PunctKind(s[pos]).None?
    requires ScanSoFar(s, allowed, found, pos)
    ensures Scan(s, allowed) == Scanned(found, Some(UnrecognizedCharacter(s[pos], pos)))
  {
    assert ScanFrom(s, pos, allowed) == Scanned([], Some(UnrecognizedCharacter(s[pos], pos)));
    assert found + [] == found;
  }

  lemma EndStep(s: string, allowed: set<string>, found: seq<Token>)
    requires ScanSoFar(s, allowed, found, |s|)
    ensures Scan(s, allowed) == Scanned(found, None)
  {
    assert found + [] == found;
  }

  /** The separator `loadFile` appends after every line. */
  const LineSeparator: string := "\n"

  /** The text `loadFile` builds: every line followed by the separator. */
  function JoinLines(lines: seq<string>): string
  {
    if |lines| == 0 then "" else lines[0] + LineSeparator + JoinLines(lines[1..])
  }

  /** The non-whitespace characters of each line, one line after another. */
  function NonWhitespaceLines(lines: seq<string>): string
  {
    if |lines| == 0 then "" else NonWhitespace(lines[0]) + NonWhitespaceLines(lines[1..])
  }

  lemma {:induction false} JoinLinesSnoc(lines: seq<string>, line: string)
    ensures JoinLines(lines + [line]) == JoinLines(lines) + line + LineSeparator
  {
    if |lines| > 0 {
      assert (lines + [line])[1..] == lines[1..] + [line];
      JoinLinesSnoc(lines[1..], line);
    }
  }

  /** The separators `loadFile` adds are whitespace: the scan sees the lines' own characters only. */
  lemma {:induction false} JoinLinesNonWhitespace(lines: seq<string>)
    ensures NonWhitespace(JoinLines(lines)) == NonWhitespaceLines(lines)
  {
    if |lines| > 0 {
      var head := lines[0] + LineSeparator;
      var whole := head + JoinLines(lines[1..]);
      NonWhitespaceSplit(whole, |head|);
      assert whole[..|head|] == head && whole[|head|..] == JoinLines(lines[1..]);
      NonWhitespaceSplit(head, |lines[0]|);
      assert head[..|lines[0]|] == lines[0];
      assert NonWhitespace(LineSeparator) == "" by {
        assert LineSeparator[1..] == "";
      }
      assert head[|lines[0]|..] == LineSeparator;
      JoinLinesNonWhitespace(lines[1..]);
    }
  }

  class LexicalAnalyzer {
    const symbolTable: SymbolTable
    /** TokenKind's table of kind names (keywords among them), loaded at start-up. */
    const allowed: set<string>
    var context: string
    var tokens: seq<Token>

    constructor (symbolTable: SymbolTable, allowed: set<string>)
      ensures this.symbolTable == symbolTable && this.allowed == allowed
      ensures tokens == []
    {
      this.symbolTable := symbolTable;
      this.allowed := allowed;
      this.tokens := [];
      this.context := "";
    }

    /**
     * `loadFile`: the file's lines (read by the caller), each followed by the
     * line separator, become the text to scan.
     */
    method LoadFile(lines: seq<string>)
      modifies this`context
      ensures context == JoinLines(lines)
      ensures NonWhitespace(context) == NonWhitespaceLines(lines)
    {
      var buffer := "";
      var i := 0;
      while i < |lines|
        invariant 0 <= i <= |lines|
        invariant buffer == JoinLines(lines[..i])
      {
        JoinLinesSnoc(lines[..i], lines[i]);
        assert lines[..i + 1] == lines[..i] + [lines[i]];
        buffer := buffer + lines[i] + LineSeparator;
        i := i + 1;
      }
      assert lines[..i] == lines;
      context := buffer;
      JoinLinesNonWhitespace(lines);
    }

    /**
     * The inner loops of `run`: collects the maximal run of identifier
     * characters (or of digits) that starts at `start`.
     */
    static method ReadRun(s: string, start: nat, digitsOnly: bool) returns (text: string, end: nat)
      requires start <= |s|
      ensures end == RunEnd(s, start, digitsOnly) && text == s[start..end]
    {
      end := start;
      text := "";
      while end < |s| && (if digitsOnly then IsDigit(s[end]) else IsIdentChar(s[end]))
        invariant start <= end <= |s|
        invariant text == s[start..end]
        invariant RunEnd(s, start, digitsOnly) == RunEnd(s, end, digitsOnly)
        decreases |s| - end
      {
        text := text + [s[end]];
        end := end + 1;
      }
    }

    /**
     * The identifier branch of `run`'s loop: reads the maximal identifier run
     * at `start`; a text in the kind table becomes a keyword token, any
     * other text an `id` token that is added to the symbol table.
     */
    method ReadIdentifier(s: string, start: nat) returns (tok: Token, end: nat)
      requires start <= |s| && symbolTable.Valid()
      modifies symbolTable
      ensures symbolTable.Valid()
      ensures end == RunEnd(s, start, false)
      ensures tok == if s[start..end] in allowed then Simple(Kind(s[start..end])) else Token(IdKind, s[start..end])
      ensures symbolTable.entries == if s[start..end] in allowed then old(symbolTable.entries) else AddEntry(old(symbolTable.entries), s[start..end])
    {
      var identifier;
      identifier, end := ReadRun(s, start, false);
      if identifier in allowed {
        tok := Simple(Kind(identifier));
      } else {
        tok := Token(IdKind, identifier);
        var _ := symbolTable.Add(identifier);
      }
    }

    /**
     * The branches of `run`'s loop that produce a token: an identifier or
     * keyword, a number, or one punctuation character.
     */
    method ReadToken(s: string, pos: nat, ghost found: seq<Token>) returns (tok: Token, next: nat)
      requires pos < |s| && symbolTable.Valid() && !IsWhitespace(s[pos])
      requires IsLetter(s[pos]) || IsDigit(s[pos]) || PunctKind(s[pos]).Some?
      requires ScanSoFar(s, allowed, found, pos)
      modifies symbolTable
      ensures symbolTable.Valid()
      ensures pos < next <= |s| && ScanSoFar(s, allowed, found + [tok], next)
      ensures symbolTable.entries ==
        if IsIdToken(tok) then AddEntry(old(symbolTable.entries), tok.text) else old(symbolTable.entries)
    {
      var c := s[pos];
      if IsLetter(c) {
        tok, next := ReadIdentifier(s, pos);
        RunStep(s, allowed, found, pos, next, true, tok);
      } else if IsDigit(c) {
        var number;
        number, next := ReadRun(s, pos, true);
        tok := Token(IntConstKind, number);
        RunStep(s, allowed, found, pos, next, false, tok);
      } else {
        var k := PunctKind(c).value;
        tok := Simple(k);
        PunctStep(s, allowed, found, pos, k);
        next := pos + 1;
      }
    }

    /**
     * `run`: scans `context`, appending the tokens and, on success, the
     * end-of-input token; on an unrecognized character it stops with the
     * tokens found before it already appended.
     */
    method Run() returns (r: Result<(), LexError>)
      requires symbolTable.Valid()
      modifies this`tokens, symbolTable
      ensures symbolTable.Valid()
      ensures var sc := Scan(context, allowed);
        && (r.Ok? <==> sc.error.None?)
        && (r.Err? ==> r.error == sc.error.value)
        && tokens == old(tokens) + sc.tokens + (if r.Ok? then [EofToken] else [])
        && symbolTable.entries == AddAll(old(symbolTable.entries), IdTexts(sc.tokens))
    {
      var s := context;
      var pos := 0;
      ghost var found: seq<Token> := [];
      assert found + ScanFrom(s, 0, allowed).tokens == ScanFrom(s, 0, allowed).tokens;
      assert ScanSoFar(s, allowed, found, 0);
      while pos < |s|
        invariant 0 <= pos <= |s|
        invariant symbolTable.Valid()
        invariant tokens == old(tokens) + found
        invariant symbolTable.entries == AddAll(old(symbolTable.entries), IdTexts(found))
        invariant ScanSoFar(s, allowed, found, pos)
        decreases |s| - pos
      {
        var c := s[pos];
        if IsWhitespace(c) {
          WhitespaceStep(s, allowed, found, pos);
          pos := pos + 1;
        } else if IsLetter(c) || IsDigit(c) || PunctKind(c).Some? {
          var tok;
          tok, pos := ReadToken(s, pos, found);
          Registered(old(symbolTable.entries), found, tok);
          tokens := tokens + [tok];
          found := found + [tok];
        } else {
          FailStep(s, allowed, found, pos);
          return Err(UnrecognizedCharacter(c, pos));
        }
      }
      EndStep(s, allowed, found);
      tokens := tokens + [EofToken];
      return Ok(());
    }

  }

  lemma {:induction false} IdTextsAppend(found: seq<Token>, tok: Token)
    ensures IdTexts(found + [tok]) == IdTexts(found) + (if IsIdToken(tok) then [tok.text] else [])
  {
    if |found| > 0 {
      assert (found + [tok])[1..] == found[1..] + [tok];
      IdTextsAppend(found[1..], tok);
    }
  }

  lemma {:induction false} AddAllAppend(entries: map<string, Entry>, texts: seq<string>, t: string)
    ensures AddAll(entries, texts + [t]) == AddEntry(AddAll(entries, texts), t)
    decreases |texts|
  {
    if |texts| > 0 {
      assert (texts + [t])[1..] == texts[1..] + [t];
      AddAllAppend(AddEntry(entries, texts[0]), texts[1..], t);
    }
  }

  /** The symbol table after one more token: its identifier text, if any, added. */
  lemma Registered(entries: map<string, Entry>, found: seq<Token>, tok: Token)
    ensures AddAll(entries, IdTexts(found + [tok]))
      == if IsIdToken(tok) then AddEntry(AddAll(entries, IdTexts(found)), tok.text) else AddAll(entries, IdTexts(found))
  {
    IdTextsAppend(found, tok);
    if IsIdToken(tok) {
      AddAllAppend(entries, IdTexts(found), tok.text);
    } else {
      assert IdTexts(found + [tok]) == IdTexts(found) + [];
      assert IdTexts(found) + [] == IdTexts(found);
    }
  }

  /**
   * After a run every identifier token's text is in the symbol table, and
   * every text in the table was there before or is an identifier token's.
   */
  lemma RunRegistersIds(entries: map<string, Entry>, tokens: seq<Token>)
    ensures forall i :: 0 <= i < |tokens| && IsIdToken(tokens[i]) ==> tokens[i].text in AddAll(entries, IdTexts(tokens))
    ensures forall k :: k in AddAll(entries, IdTexts(tokens)) && k !in entries ==>
      exists i :: 0 <= i < |tokens| && IsIdToken(tokens[i]) && tokens[i].text == k
  {
    AddAllSpec(entries, IdTexts(tokens));
  }
}
