/** generateMermaidCode: the table model as Mermaid `erDiagram` text. */
module Mermaid {
  import opened Schema

  /** The first line of the markup, and the line that closes a table's block. */
  const HEADER_LINE := "erDiagram"
  const CLOSE_LINE := "  }"

  /** The same two lines with their line breaks, as the markup contains them. */
  const HEADER := HEADER_LINE + "\n"
  const TABLE_TAIL := CLOSE_LINE + "\n"

  /** `Array.prototype.join`: the parts with the separator between neighbours. */
  function Join(parts: seq<string>, sep: string): string
    decreases |parts|
  {
    if |parts| == 0 then ""
    else if |parts| == 1 then parts[0]
    else parts[0] + sep + Join(parts[1..], sep)
  }

  /** The line that opens a table's block: its name and an opening brace. */
  function OpenLine(t: TableInfo): string {
    "  " + t.tableName + " {"
  }

  /** The opening of a table's block with its line break. */
  function TableHead(t: TableInfo): string {
    OpenLine(t) + "\n"
  }

  /** The start of a column's line: its type and its name. */
  function ColumnHead(c: ColumnInfo): string {
    "    " + c.dataType + " " + c.name
  }

  /** A space, then the text between double quotes, embedded as it is (no escaping). */
  function Quoted(text: string): string {
    " \"" + text + "\""
  }

  /** The quoted constraint list, present only when there is a constraint. */
  function ConstraintSegment(c: ColumnInfo): string {
    if |c.constraints| > 0 then Quoted(Join(c.constraints, ", ")) else ""
  }

  /** The quoted comment, present only when the comment is not empty. */
  function CommentSegment(c: ColumnInfo): string {
    if c.comment != "" then Quoted(c.comment) else ""
  }

  /** A column's line without its line break. */
  function ColumnText(c: ColumnInfo): string {
    ColumnHead(c) + ConstraintSegment(c) + CommentSegment(c)
  }

  /** The column lines of a table, each with its line break. */
  function ColumnLines(cols: seq<ColumnInfo>): string
    decreases |cols|
  {
    if cols == [] then ""
    else ColumnLines(cols[..|cols| - 1]) + (ColumnText(cols[|cols| - 1]) + "\n")
  }

  function TableBlock(t: TableInfo): string {
    TableHead(t) + ColumnLines(t.columns) + TABLE_TAIL
  }

  function Blocks(ts: seq<TableInfo>): string
    decreases |ts|
  {
    if ts == [] then ""
    else Blocks(ts[..|ts| - 1]) + TableBlock(ts[|ts| - 1])
  }

  /** The whole markup: the header line, then one block per table. */
  function MermaidCode(ts: seq<TableInfo>): string {
    HEADER + Blocks(ts)
  }

  lemma Assoc(a: string, b: string, c: string)
    ensures a + b + c == a + (b + c)
  {
  }

  /** generateMermaidCode, appending to `code` inside two nested loops. */
  method GenerateMermaidCode(tablesInfo: seq<TableInfo>) returns (code: string)
    ensures code == MermaidCode(tablesInfo)
  {
    code := HEADER;
    var i := 0;
    while i < |tablesInfo|
      invariant 0 <= i <= |tablesInfo|
      invariant code == MermaidCode(tablesInfo[..i])
    {
      var tableInfo := tablesInfo[i];
      ghost var before := code;
      code := code + TableHead(tableInfo);
      ghost var blockStart := code;
      var j := 0;
      while j < |tableInfo.columns|
        invariant 0 <= j <= |tableInfo.columns|
        invariant code == blockStart + ColumnLines(tableInfo.columns[..j])
      {
        code := AppendColumnLine(code, tableInfo.columns[j]);
        ColumnLinesSnoc(blockStart, tableInfo.columns, j);
        j := j + 1;
      }
      code := code + TABLE_TAIL;
      TableBlockAppended(before, tableInfo, j);
      BlocksSnoc(tablesInfo, i);
      i := i + 1;
    }
    assert tablesInfo[..i] == tablesInfo;
  }

  /** The callback run for each column: its segments are appended one by one, the optional
      ones only when they have content, then the line break. */
  method AppendColumnLine(code: string, column: ColumnInfo) returns (result: string)
    ensures result == code + (ColumnText(column) + "\n")
  {
    result := code + ColumnHead(column);
    if |column.constraints| > 0 {
      result := result + Quoted(Join(column.constraints, ", "));
    }
    if column.comment != "" {
      result := result + Quoted(column.comment);
    }
    result := result + "\n";
    ColumnLineAppended(code, column);
  }

  /** Appending a column's segments one by one appends its line. */
  lemma ColumnLineAppended(start: string, c: ColumnInfo)
    ensures start + ColumnHead(c) + ConstraintSegment(c) + CommentSegment(c) + "\n" == start + (ColumnText(c) + "\n")
  {
    Assoc(start, ColumnHead(c), ConstraintSegment(c));
    Assoc(start, ColumnHead(c) + ConstraintSegment(c), CommentSegment(c));
    Assoc(start, ColumnText(c), "\n");
  }

  lemma ColumnLinesSnoc(start: string, cols: seq<ColumnInfo>, j: nat)
    requires j < |cols|
    ensures start + ColumnLines(cols[..j]) + (ColumnText(cols[j]) + "\n") == start + ColumnLines(cols[..j + 1])
  {
    assert cols[..j + 1][..j] == cols[..j];
    Assoc(start, ColumnLines(cols[..j]), ColumnText(cols[j]) + "\n");
  }

  lemma TableBlockAppended(start: string, t: TableInfo, j: nat)
    requires j == |t.columns|
    ensures start + TableHead(t) + ColumnLines(t.columns[..j]) + TABLE_TAIL == start + TableBlock(t)
  {
    assert t.columns[..j] == t.columns;
    Assoc(start, TableHead(t), ColumnLines(t.columns));
    Assoc(start, TableHead(t) + ColumnLines(t.columns), TABLE_TAIL);
  }

  lemma BlocksSnoc(ts: seq<TableInfo>, i: nat)
    requires i < |ts|
    ensures MermaidCode(ts[..i]) + TableBlock(ts[i]) == MermaidCode(ts[..i + 1])
  {
    assert ts[..i + 1][..i] == ts[..i];
    Assoc(HEADER, Blocks(ts[..i]), TableBlock(ts[i]));
  }

  // The markup read back as lines.

  /** The lines of a text, each ended by a line break (a last line may lack one). */
  function Lines(s: string): seq<string>
    decreases |s|
  {
    if s == [] then []
    else
      var n := LineEnd(s);
      if n == |s| then [s] else [s[..n]] + Lines(s[n + 1..])
  }

  /** The index of the first line break, or the length when there is none. */
  function LineEnd(s: string): (n: nat)
    ensures n <= |s|
    ensures forall k :: 0 <= k < n ==> s[k] != '\n'
    ensures n < |s| ==> s[n] == '\n'
    decreases |s|
  {
    if s == [] || s[0] == '\n' then 0 else 1 + LineEnd(s[1..])
  }

  /** Lines written one after the other, each followed by a line break. */
  function Unlines(ls: seq<string>): string
    decreases |ls|
  {
    if ls == [] then "" else ls[0] + "\n" + Unlines(ls[1..])
  }

  predicate NoBreaks(ls: seq<string>) {
    forall k :: 0 <= k < |ls| ==> '\n' !in ls[k]
  }

  /** Reading back lines that were written out gives the same lines. */
  lemma {:induction false} LinesOfUnlines(ls: seq<string>)
    requires NoBreaks(ls)
    ensures Lines(Unlines(ls)) == ls
    decreases |ls|
  {
    if ls != [] {
      var s := Unlines(ls);
      var l := ls[0];
      assert s == l + "\n" + Unlines(ls[1..]);
      assert s[|l|] == '\n';
      assert '\n' !in l;
      assert forall k :: 0 <= k < |l| ==> s[k] == l[k];
      assert LineEnd(s) == |l|;
      assert s[..|l|] == l;
      assert s[|l| + 1..] == Unlines(ls[1..]);
      LinesOfUnlines(ls[1..]);
    }
  }

  lemma {:induction false} UnlinesAppend(a: seq<string>, b: seq<string>)
    ensures Unlines(a + b) == Unlines(a) + Unlines(b)
    decreases |a|
  {
    if a == [] {
      assert a + b == b;
    } else {
      assert (a + b)[1..] == a[1..] + b;
      UnlinesAppend(a[1..], b);
      Assoc(a[0] + "\n", Unlines(a[1..]), Unlines(b));
    }
  }

  lemma UnlinesOne(l: string)
    ensures Unlines([l]) == l + "\n"
  {
    assert [l][1..] == [];
  }

  /** The line texts of some columns, in order. */
  function ColumnTexts(cols: seq<ColumnInfo>): (ls: seq<string>)
    ensures |ls| == |cols|
    ensures forall j :: 0 <= j < |cols| ==> ls[j] == ColumnText(cols[j])
    decreases |cols|
  {
    if cols == [] then [] else ColumnTexts(cols[..|cols| - 1]) + [ColumnText(cols[|cols| - 1])]
  }

  /** The lines a table contributes: its opening line, one line per column in order, the closing line. */
  function TableLines(t: TableInfo): seq<string> {
    [OpenLine(t)] + ColumnTexts(t.columns) + [CLOSE_LINE]
  }

  function AllTableLines(ts: seq<TableInfo>): seq<string>
    decreases |ts|
  {
    if ts == [] then [] else AllTableLines(ts[..|ts| - 1]) + TableLines(ts[|ts| - 1])
  }

  /** The lines the markup should consist of: the header, then every table's lines in order. */
  function DiagramLines(ts: seq<TableInfo>): seq<string> {
    [HEADER_LINE] + AllTableLines(ts)
  }

  /** 1 + the sum over the tables of their column count plus two. */
  function LineBudget(ts: seq<TableInfo>): nat
    decreases |ts|
  {
    if ts == [] then 1 else LineBudget(ts[..|ts| - 1]) + |ts[|ts| - 1].columns| + 2
  }

  lemma {:induction false} ColumnLinesAreUnlines(cols: seq<ColumnInfo>)
    ensures ColumnLines(cols) == Unlines(ColumnTexts(cols))
    decreases |cols|
  {
    if cols != [] {
      var n := |cols| - 1;
      ColumnLinesAreUnlines(cols[..n]);
      UnlinesAppend(ColumnTexts(cols[..n]), [ColumnText(cols[n])]);
      UnlinesOne(ColumnText(cols[n]));
    }
  }

  lemma UnlinesFramed(first: string, middle: seq<string>, last: string)
    ensures Unlines([first] + middle + [last]) == first + "\n" + Unlines(middle) + (last + "\n")
  {
    UnlinesAppend([first] + middle, [last]);
    UnlinesAppend([first], middle);
    UnlinesOne(first);
    UnlinesOne(last);
  }

  lemma TableBlockIsUnlines(t: TableInfo)
    ensures TableBlock(t) == Unlines(TableLines(t))
  {
    ColumnLinesAreUnlines(t.columns);
    UnlinesFramed(OpenLine(t), ColumnTexts(t.columns), CLOSE_LINE);
  }

  lemma {:induction false} BlocksAppend(a: seq<TableInfo>, b: seq<TableInfo>)
    ensures Blocks(a + b) == Blocks(a) + Blocks(b)
    decreases |b|
  {
    if b == [] {
      assert a + b == a;
    } else {
      var n := |b| - 1;
      assert (a + b)[..|a + b| - 1] == a + b[..n];
      assert (a + b)[|a + b| - 1] == b[n];
      BlocksAppend(a, b[..n]);
      Assoc(Blocks(a), Blocks(b[..n]), TableBlock(b[n]));
    }
  }

  lemma {:induction false} BlocksAreUnlines(ts: seq<TableInfo>)
    ensures Blocks(ts) == Unlines(AllTableLines(ts))
    decreases |ts|
  {
    if ts != [] {
      var n := |ts| - 1;
      BlocksAreUnlines(ts[..n]);
      TableBlockIsUnlines(ts[n]);
      UnlinesAppend(AllTableLines(ts[..n]), TableLines(ts[n]));
    }
  }

  /** The markup is exactly the diagram's lines, each followed by a line break. */
  lemma MermaidCodeIsLines(ts: seq<TableInfo>)
    ensures MermaidCode(ts) == Unlines(DiagramLines(ts))
  {
    BlocksAreUnlines(ts);
    UnlinesAppend([HEADER_LINE], AllTableLines(ts));
    UnlinesOne(HEADER_LINE);
  }

  lemma {:induction false} AllTableLinesCount(ts: seq<TableInfo>)
    ensures 1 + |AllTableLines(ts)| == LineBudget(ts)
    decreases |ts|
  {
    if ts != [] {
      AllTableLinesCount(ts[..|ts| - 1]);
    }
  }

  predicate ColumnHasNoBreak(c: ColumnInfo) {
    '\n' !in c.dataType && '\n' !in c.name && '\n' !in c.comment
    && forall k :: 0 <= k < |c.constraints| ==> '\n' !in c.constraints[k]
  }

  predicate TableHasNoBreak(t: TableInfo) {
    '\n' !in t.tableName && forall j :: 0 <= j < |t.columns| ==> ColumnHasNoBreak(t.columns[j])
  }

  lemma {:induction false} JoinHasNoBreak(parts: seq<string>, sep: string)
    requires NoBreaks(parts) && '\n' !in sep
    ensures '\n' !in Join(parts, sep)
    decreases |parts|
  {
    if |parts| > 1 {
      JoinHasNoBreak(parts[1..], sep);
    }
  }

  lemma TableLinesHaveNoBreak(t: TableInfo)
    requires TableHasNoBreak(t)
    ensures NoBreaks(TableLines(t))
  {
    forall j | 0 <= j < |t.columns| ensures '\n' !in ColumnText(t.columns[j]) {
      var c := t.columns[j];
      assert ColumnHasNoBreak(c);
      JoinHasNoBreak(c.constraints, ", ");
    }
  }

  lemma {:induction false} AllTableLinesHaveNoBreak(ts: seq<TableInfo>)
    requires forall i :: 0 <= i < |ts| ==> TableHasNoBreak(ts[i])
    ensures NoBreaks(AllTableLines(ts))
    decreases |ts|
  {
    if ts != [] {
      var n := |ts| - 1;
      TableLinesHaveNoBreak(ts[n]);
      AllTableLinesHaveNoBreak(ts[..n]);
    }
  }

  /** When no name, type, label or comment holds a line break, the markup reads back as the
      header line followed, table by table in input order, by the opening line, one line per
      column in input order and the closing line: 1 + the sum of (columns + 2) lines in all. */
  lemma MermaidLines(ts: seq<TableInfo>)
    requires forall i :: 0 <= i < |ts| ==> TableHasNoBreak(ts[i])
    ensures Lines(MermaidCode(ts)) == DiagramLines(ts)
    ensures |Lines(MermaidCode(ts))| == LineBudget(ts)
  {
    MermaidCodeIsLines(ts);
    AllTableLinesHaveNoBreak(ts);
    LinesOfUnlines(DiagramLines(ts));
    AllTableLinesCount(ts);
  }

  /** The markup starts with the header line; with no table it is the header line alone. */
  lemma MermaidHeader(ts: seq<TableInfo>)
    ensures |MermaidCode(ts)| >= |HEADER| && MermaidCode(ts)[..|HEADER|] == "erDiagram\n"
    ensures ts == [] <==> MermaidCode(ts) == "erDiagram\n"
  {
    if ts != [] {
      assert |TableBlock(ts[|ts| - 1])| > 0;
    }
  }

  /** Tables are emitted in input order: the markup of a concatenation is the markup of the
      first part followed by the blocks of the second. */
  lemma MermaidCodeAppend(a: seq<TableInfo>, b: seq<TableInfo>)
    ensures MermaidCode(a + b) == MermaidCode(a) + Blocks(b)
  {
    BlocksAppend(a, b);
    Assoc(HEADER, Blocks(a), Blocks(b));
  }

  /** The number of times `ch` occurs in `s`. */
  function Occurrences(s: string, ch: char): nat
    decreases |s|
  {
    if s == [] then 0 else (if s[0] == ch then 1 else 0) + Occurrences(s[1..], ch)
  }

  lemma {:induction false} OccurrencesAppend(a: string, b: string, ch: char)
    ensures Occurrences(a + b, ch) == Occurrences(a, ch) + Occurrences(b, ch)
    decreases |a|
  {
    if a == [] {
      assert a + b == b;
    } else {
      assert (a + b)[1..] == a[1..] + b;
      OccurrencesAppend(a[1..], b, ch);
    }
  }

  lemma {:induction false} OccurrencesAbsent(s: string, ch: char)
    requires ch !in s
    ensures Occurrences(s, ch) == 0
    decreases |s|
  {
    if s != [] {
      OccurrencesAbsent(s[1..], ch);
    }
  }

  /** A text between double quotes holds two of them when the text itself holds none. */
  lemma QuotedOccurrences(text: string)
    requires '"' !in text
    ensures Occurrences(Quoted(text), '"') == 2
  {
    OccurrencesAppend(" \"" + text, "\"", '"');
    OccurrencesAppend(" \"", text, '"');
    OccurrencesAbsent(text, '"');
  }

  lemma {:induction false} JoinHasNoQuote(parts: seq<string>, sep: string)
    requires forall k :: 0 <= k < |parts| ==> '"' !in parts[k]
    requires '"' !in sep
    ensures '"' !in Join(parts, sep)
    decreases |parts|
  {
    if |parts| > 1 {
      JoinHasNoQuote(parts[1..], sep);
    }
  }

  /** Each optional segment adds exactly one pair of double quotes: when the column's own texts
      hold no double quote, its line has two quotes when the constraint list is non-empty and
      two when the comment is non-empty, and none otherwise. */
  lemma ColumnTextQuotes(c: ColumnInfo)
    requires '"' !in c.dataType && '"' !in c.name && '"' !in c.comment
    requires forall k :: 0 <= k < |c.constraints| ==> '"' !in c.constraints[k]
    ensures Occurrences(ColumnText(c), '"') ==
      (if |c.constraints| > 0 then 2 else 0) + (if c.comment != "" then 2 else 0)
  {
    JoinHasNoQuote(c.constraints, ", ");
    OccurrencesAppend(ColumnHead(c) + ConstraintSegment(c), CommentSegment(c), '"');
    OccurrencesAppend(ColumnHead(c), ConstraintSegment(c), '"');
    OccurrencesAbsent(ColumnHead(c), '"');
    if |c.constraints| > 0 {
      QuotedOccurrences(Join(c.constraints, ", "));
    }
    if c.comment != "" {
      QuotedOccurrences(c.comment);
    }
  }
}
