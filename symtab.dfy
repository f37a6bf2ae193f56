/**
 * The symbol table: a map from identifier text to its entry, with
 * add-if-absent insertion, a lookup that fails on a missing key, a
 * membership test, and a dump sorted by text.
 */
module SymbolTables {
  import opened Results

  /** The type recorded for a symbol; filled in by later passes, never by this core. */
  type SourceCodeType(==, !new)

  /** One entry of the table: the identifier's text and its type (None until annotated). */
  datatype Entry = Entry(text: string, ty: Option<SourceCodeType>)

  /** The error `get` raises for a missing symbol. */
  datatype SymTabError = SymbolNotFound(text: string)

  /** One line of the dump, rendered as `(text, type)` by the source. */
  datatype DumpLine = DumpLine(text: string, ty: Option<SourceCodeType>)

  /** Every entry is filed under its own text. */
  ghost predicate WellFiled(entries: map<string, Entry>)
  {
    forall k :: k in entries ==> entries[k].text == k
  }

  /** The map after `add(text)`: unchanged when the key is present, else one new entry. */
  function AddEntry(entries: map<string, Entry>, text: string): (m: map<string, Entry>)
    ensures text in m
    ensures m.Keys == entries.Keys + {text}
    ensures forall k :: k in entries ==> m[k] == entries[k]
    ensures text !in entries ==> m[text] == Entry(text, None)
  {
    if text in entries then entries else entries[text := Entry(text, None)]
  }

  /** Adding a key a second time changes nothing. */
  lemma AddEntryIdempotent(entries: map<string, Entry>, text: string)
    ensures AddEntry(AddEntry(entries, text), text) == AddEntry(entries, text)
  {
  }

  /** Adding preserves the filing invariant. */
  lemma AddEntryWellFiled(entries: map<string, Entry>, text: string)
    requires WellFiled(entries)
    ensures WellFiled(AddEntry(entries, text))
  {
  }

  // ---------------------------------------------------------------------
  // The order used by the dump: Java's String.compareTo, lexicographic by
  // character, with a proper prefix ordered first.
  // ---------------------------------------------------------------------

  predicate StrLess(a: string, b: string)
  {
    if |a| == 0 then |b| > 0
    else if |b| == 0 then false
    else if a[0] != b[0] then a[0] < b[0]
    else StrLess(a[1..], b[1..])
  }

  lemma {:induction false} StrLessIrreflexive(a: string)
    ensures !StrLess(a, a)
  {
    if |a| > 0 {
      StrLessIrreflexive(a[1..]);
    }
  }

  lemma {:induction false} StrLessTransitive(a: string, b: string, c: string)
    requires StrLess(a, b) && StrLess(b, c)
    ensures StrLess(a, c)
  {
    if |a| > 0 && |b| > 0 && |c| > 0 && a[0] == b[0] && b[0] == c[0] {
      StrLessTransitive(a[1..], b[1..], c[1..]);
    }
  }

  lemma {:induction false} StrLessTotal(a: string, b: string)
    requires a != b
    ensures StrLess(a, b) || StrLess(b, a)
  {
    if |a| > 0 && |b| > 0 && a[0] == b[0] {
      assert a == [a[0]] + a[1..] && b == [b[0]] + b[1..];
      StrLessTotal(a[1..], b[1..]);
    }
  }

  /** Lines strictly ascending by text (texts in a map are distinct). */
  ghost predicate SortedByText(lines: seq<DumpLine>)
  {
    forall i, j :: 0 <= i < j < |lines| ==> StrLess(lines[i].text, lines[j].text)
  }

  function Texts(lines: seq<DumpLine>): set<string>
  {
    set i | 0 <= i < |lines| :: lines[i].text
  }

  lemma TextsCons(line: DumpLine, lines: seq<DumpLine>)
    ensures Texts([line] + lines) == {line.text} + Texts(lines)
  {
    var r := [line] + lines;
    forall t | t in Texts(r) ensures t in {line.text} + Texts(lines) {
      var i :| 0 <= i < |r| && r[i].text == t;
      if i > 0 { assert lines[i - 1].text == t; }
    }
    forall t | t in Texts(lines) ensures t in Texts(r) {
      var i :| 0 <= i < |lines| && lines[i].text == t;
      assert r[i + 1].text == t;
    }
    assert r[0].text == line.text;
  }

  /** Inserts a line into a sorted dump at its place by text. */
  function InsertByText(lines: seq<DumpLine>, line: DumpLine): (r: seq<DumpLine>)
    requires SortedByText(lines)
    requires line.text !in Texts(lines)
    ensures SortedByText(r)
    ensures Texts(r) == Texts(lines) + {line.text}
    ensures |r| == |lines| + 1
    ensures forall x :: x in r <==> x in lines || x == line
    decreases |lines|
  {
    if |lines| == 0 then
      assert [line][0].text == line.text;
      [line]
    else if StrLess(line.text, lines[0].text) then
      InsertFront(lines, line);
      [line] + lines
    else
      TextsCons(lines[0], lines[1..]);
      assert lines == [lines[0]] + lines[1..];
      var rest := InsertByText(lines[1..], line);
      InsertBehind(lines, line, rest);
      [lines[0]] + rest
  }

  lemma InsertFront(lines: seq<DumpLine>, line: DumpLine)
    requires SortedByText(lines) && |lines| > 0
    requires StrLess(line.text, lines[0].text)
    ensures SortedByText([line] + lines)
    ensures Texts([line] + lines) == Texts(lines) + {line.text}
  {
    forall j | 0 < j < |lines| ensures StrLess(line.text, lines[j].text) {
      StrLessTransitive(line.text, lines[0].text, lines[j].text);
    }
    TextsCons(line, lines);
  }

  lemma InsertBehind(lines: seq<DumpLine>, line: DumpLine, rest: seq<DumpLine>)
    requires SortedByText(lines) && |lines| > 0
    requires line.text !in Texts(lines) && !StrLess(line.text, lines[0].text)
    requires SortedByText(rest)
    requires Texts(rest) == Texts(lines[1..]) + {line.text}
    ensures SortedByText([lines[0]] + rest)
    ensures Texts([lines[0]] + rest) == Texts(lines) + {line.text}
  {
    assert lines[0].text in Texts(lines);
    StrLessTotal(line.text, lines[0].text);
    var r := [lines[0]] + rest;
    forall j | 0 <= j < |rest| ensures StrLess(lines[0].text, rest[j].text) {
      assert rest[j].text in Texts(rest);
      if rest[j].text != line.text {
        var k :| 1 <= k < |lines| && lines[k].text == rest[j].text by {
          var k' :| 0 <= k' < |lines[1..]| && lines[1..][k'].text == rest[j].text;
          assert lines[k' + 1].text == rest[j].text;
        }
      }
    }
    TextsCons(lines[0], rest);
    TextsCons(lines[0], lines[1..]);
    assert lines == [lines[0]] + lines[1..];
  }

  class SymbolTable {
    var entries: map<string, Entry>

    ghost predicate Valid()
      reads this
    {
      WellFiled(entries)
    }

    constructor ()
      ensures Valid() && entries == map[]
    {
      entries := map[];
    }

    /** `get`: the stored entry, or SymbolNotFound when the text is absent. */
    function Get(text: string): (r: Result<Entry, SymTabError>)
      reads this
      requires Valid()
      ensures r.Ok? <==> text in entries
      ensures r.Ok? ==> r.value == entries[text] && r.value.text == text
      ensures r.Err? ==> r.error == SymbolNotFound(text)
    {
      if text !in entries then Err(SymbolNotFound(text)) else Ok(entries[text])
    }

    /** `add`: add-if-absent, returning the entry now stored under `text`. */
    method Add(text: string) returns (e: Entry)
      requires Valid()
      modifies this
      ensures Valid()
      ensures entries == AddEntry(old(entries), text)
      ensures e == entries[text] && e.text == text
      ensures text in old(entries) ==> e == old(entries)[text]
    {
      if text in entries {
        return entries[text];
      }
      var newEntry := Entry(text, None);
      entries := entries[text := newEntry];
      e := newEntry;
    }

    /** `has`: membership. */
    function Has(text: string): (b: bool)
      reads this
      ensures b <==> text in entries
    {
      text in entries
    }

    /**
     * The formatting part of `dumpTable`: one line per entry, ascending by text.
     * The source sorts a copied list; here each entry is inserted at its place.
     */
    method DumpTable() returns (lines: seq<DumpLine>)
      requires Valid()
      ensures SortedByText(lines)
      ensures |lines| == |entries|
      ensures Texts(lines) == entries.Keys
      ensures forall i :: 0 <= i < |lines| ==> lines[i] == DumpLine(lines[i].text, entries[lines[i].text].ty)
    {
      lines := [];
      var pending := entries.Keys;
      while pending != {}
        invariant pending <= entries.Keys
        invariant SortedByText(lines)
        invariant Texts(lines) == entries.Keys - pending
        invariant |lines| + |pending| == |entries|
        invariant forall i :: 0 <= i < |lines| ==> lines[i].text in entries && lines[i] == DumpLine(lines[i].text, entries[lines[i].text].ty)
        decreases |pending|
      {
        var k :| k in pending;
        var oldLines := lines;
        lines := InsertByText(lines, DumpLine(k, entries[k].ty));
        forall i | 0 <= i < |lines|
          ensures lines[i].text in entries && lines[i] == DumpLine(lines[i].text, entries[lines[i].text].ty)
        {
          assert lines[i] in lines;
          if lines[i] in oldLines {
            var j :| 0 <= j < |oldLines| && oldLines[j] == lines[i];
          }
        }
        pending := pending - {k};
      }
      assert |entries.Keys| == |entries|;
    }
  }

  /** After `add(text)`, `has(text)` holds and a second `add` changes nothing. */
  method AddThenHas(t: SymbolTable, text: string)
    requires t.Valid()
    modifies t
    ensures t.Has(text)
    ensures t.entries == AddEntry(old(t.entries), text)
  {
    var _ := t.Add(text);
    var before := t.entries;
    var again := t.Add(text);
    assert t.entries == before;
  }
}
