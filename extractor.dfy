/** extractTableInfo: from the parser's statements and the comment scans to the table model. */
module Extractor {
  import opened Schema
  import opened Constraints
  import opened Comments

  const CREATE_KIND := "create"
  const COLUMN_RESOURCE := "column"

  /** A parser result as an array: a single statement becomes a one-element array. */
  function Statements(ast: ParseResult): seq<Statement> {
    match ast
    case Single(s) => [s]
    case Many(ss) => ss
  }

  predicate IsCreate(stmt: Statement) {
    stmt.kind == CREATE_KIND
  }

  predicate IsColumn(def: CreateDefinition) {
    def.resource == COLUMN_RESOURCE
  }

  /** `ast.filter(stmt => stmt.type === 'create')` */
  function CreateStatements(stmts: seq<Statement>): seq<Statement>
    decreases |stmts|
  {
    if stmts == [] then []
    else (if IsCreate(stmts[0]) then [stmts[0]] else []) + CreateStatements(stmts[1..])
  }

  /** The column-kind definitions of a definition list, in order. */
  function ColumnDefinitions(defs: seq<CreateDefinition>): seq<CreateDefinition>
    decreases |defs|
  {
    if defs == [] then []
    else (if IsColumn(defs[0]) then [defs[0]] else []) + ColumnDefinitions(defs[1..])
  }

  /** The column record built for one column definition. */
  function ColumnInfoOf(def: CreateDefinition, comments: map<string, string>): ColumnInfo {
    ColumnInfo(def.column, def.definition.dataType, ConstraintLabels(def.definition), CommentFor(comments, def.column))
  }

  /** `create_definitions.map(def => column ? info : null).filter(Boolean)` */
  function Columns(defs: seq<CreateDefinition>, comments: map<string, string>): seq<ColumnInfo>
    decreases |defs|
  {
    if defs == [] then []
    else (if IsColumn(defs[0]) then [ColumnInfoOf(defs[0], comments)] else []) + Columns(defs[1..], comments)
  }

  /** One create statement's table, or the error reading it throws: the first table reference
      is read before the definition list is mapped. */
  function TableOf(stmt: Statement, comments: map<string, string>): Result<TableInfo> {
    if |stmt.table| == 0 then Err(MissingTableReference)
    else match stmt.createDefinitions
      case None => Err(MissingDefinitionList)
      case Some(defs) => Ok(TableInfo(stmt.table[0].table, Columns(defs, comments)))
  }

  /** The tables of the create statements in order; the first statement that throws decides
      the error. */
  function Tables(creates: seq<Statement>, comments: map<string, string>): Result<seq<TableInfo>>
    decreases |creates|
  {
    if creates == [] then Ok([])
    else match TableOf(creates[0], comments)
      case Err(e) => Err(e)
      case Ok(t) =>
        match Tables(creates[1..], comments)
        case Err(e) => Err(e)
        case Ok(ts) => Ok([t] + ts)
  }

  /** What extractTableInfo returns for a parser result and a comment dictionary. */
  function Extract(ast: ParseResult, comments: map<string, string>): Result<seq<TableInfo>> {
    Tables(CreateStatements(Statements(ast)), comments)
  }

  /** extractTableInfo: the two comment scans fill the dictionary one match at a time, then the
      create statements are turned into tables. */
  method ExtractTableInfo(ast: ParseResult, firstPass: seq<CommentMatch>, secondPass: seq<CommentMatch>)
    returns (result: Result<seq<TableInfo>>)
    ensures result == Extract(ast, Dictionary(firstPass + secondPass))
  {
    var comments: map<string, string> := map[];
    var i := 0;
    while i < |firstPass|
      invariant 0 <= i <= |firstPass|
      invariant comments == Dictionary(firstPass[..i])
    {
      DictionarySnoc(firstPass, i);
      comments := comments[firstPass[i].name := firstPass[i].text];
      i := i + 1;
    }
    assert firstPass[..i] == firstPass + secondPass[..0];
    var j := 0;
    while j < |secondPass|
      invariant 0 <= j <= |secondPass|
      invariant comments == Dictionary(firstPass + secondPass[..j])
    {
      assert firstPass + secondPass[..j + 1] == (firstPass + secondPass)[..|firstPass| + j + 1];
      assert firstPass + secondPass[..j] == (firstPass + secondPass)[..|firstPass| + j];
      DictionarySnoc(firstPass + secondPass, |firstPass| + j);
      comments := comments[secondPass[j].name := secondPass[j].text];
      j := j + 1;
    }
    assert secondPass[..j] == secondPass;
    result := Tables(CreateStatements(Statements(ast)), comments);
  }

  /** A single statement is treated as a one-element array. */
  lemma SingleIsOneElementArray(stmt: Statement, comments: map<string, string>)
    ensures Extract(Single(stmt), comments) == Extract(Many([stmt]), comments)
  {
  }

  /** The filter keeps exactly the create statements, in order, and drops the rest. */
  lemma {:induction false} CreateStatementsFilter(stmts: seq<Statement>)
    ensures forall s :: s in CreateStatements(stmts) <==> s in stmts && IsCreate(s)
    ensures |CreateStatements(stmts)| <= |stmts|
    ensures (forall k :: 0 <= k < |stmts| ==> !IsCreate(stmts[k])) ==> CreateStatements(stmts) == []
    ensures (forall k :: 0 <= k < |stmts| ==> IsCreate(stmts[k])) ==> CreateStatements(stmts) == stmts
    decreases |stmts|
  {
    if stmts != [] {
      CreateStatementsFilter(stmts[1..]);
      assert stmts == [stmts[0]] + stmts[1..];
    }
  }

  /** Filtering a concatenation filters each part: relative order is kept. */
  lemma {:induction false} CreateStatementsAppend(a: seq<Statement>, b: seq<Statement>)
    ensures CreateStatements(a + b) == CreateStatements(a) + CreateStatements(b)
    decreases |a|
  {
    if a == [] {
      assert a + b == b;
    } else {
      var head := if IsCreate(a[0]) then [a[0]] else [];
      assert (a + b)[0] == a[0] && (a + b)[1..] == a[1..] + b;
      assert CreateStatements(a + b) == head + CreateStatements(a[1..] + b);
      CreateStatementsAppend(a[1..], b);
      assert head + (CreateStatements(a[1..]) + CreateStatements(b))
          == (head + CreateStatements(a[1..])) + CreateStatements(b);
    }
  }

  /** The same two facts for the column filter. */
  lemma {:induction false} ColumnDefinitionsFilter(defs: seq<CreateDefinition>)
    ensures forall d :: d in ColumnDefinitions(defs) <==> d in defs && IsColumn(d)
    ensures |ColumnDefinitions(defs)| <= |defs|
    ensures (forall k :: 0 <= k < |defs| ==> IsColumn(defs[k])) ==> ColumnDefinitions(defs) == defs
    decreases |defs|
  {
    if defs != [] {
      ColumnDefinitionsFilter(defs[1..]);
      assert defs == [defs[0]] + defs[1..];
    }
  }

  lemma {:induction false} ColumnDefinitionsAppend(a: seq<CreateDefinition>, b: seq<CreateDefinition>)
    ensures ColumnDefinitions(a + b) == ColumnDefinitions(a) + ColumnDefinitions(b)
    decreases |a|
  {
    if a == [] {
      assert a + b == b;
    } else {
      var head := if IsColumn(a[0]) then [a[0]] else [];
      assert (a + b)[0] == a[0] && (a + b)[1..] == a[1..] + b;
      assert ColumnDefinitions(a + b) == head + ColumnDefinitions(a[1..] + b);
      ColumnDefinitionsAppend(a[1..], b);
      assert head + (ColumnDefinitions(a[1..]) + ColumnDefinitions(b))
          == (head + ColumnDefinitions(a[1..])) + ColumnDefinitions(b);
    }
  }

  /** A table's columns are the column-kind definitions in declaration order, each with its
      name and type from the definition, its constraint labels and its dictionary comment. */
  lemma {:induction false} ColumnsOfColumnDefinitions(defs: seq<CreateDefinition>, comments: map<string, string>)
    ensures |Columns(defs, comments)| == |ColumnDefinitions(defs)|
    ensures forall j :: 0 <= j < |ColumnDefinitions(defs)| ==>
      var def := ColumnDefinitions(defs)[j];
      Columns(defs, comments)[j] == ColumnInfo(def.column, def.definition.dataType, ConstraintLabels(def.definition), CommentFor(comments, def.column))
    decreases |defs|
  {
    if defs != [] {
      var rest := defs[1..];
      ColumnsOfColumnDefinitions(rest, comments);
      if IsColumn(defs[0]) {
        assert Columns(defs, comments) == [ColumnInfoOf(defs[0], comments)] + Columns(rest, comments);
        assert ColumnDefinitions(defs) == [defs[0]] + ColumnDefinitions(rest);
        forall j | 0 < j < |ColumnDefinitions(defs)|
          ensures Columns(defs, comments)[j] == ColumnInfoOf(ColumnDefinitions(defs)[j], comments)
        {
          assert Columns(defs, comments)[j] == Columns(rest, comments)[j - 1];
          assert ColumnDefinitions(defs)[j] == ColumnDefinitions(rest)[j - 1];
        }
      } else {
        assert Columns(defs, comments) == Columns(rest, comments);
        assert ColumnDefinitions(defs) == ColumnDefinitions(rest);
      }
    }
  }

  predicate WellFormed(stmt: Statement) {
    |stmt.table| > 0 && stmt.createDefinitions.Some?
  }

  /** Extraction succeeds iff every create statement has a table reference and a definition
      list; then there is one table per create statement, in order, named by its first table
      reference and holding the columns of its definition list. */
  lemma {:induction false} TablesOfCreates(creates: seq<Statement>, comments: map<string, string>)
    ensures Tables(creates, comments).Ok? <==> forall k :: 0 <= k < |creates| ==> WellFormed(creates[k])
    ensures Tables(creates, comments).Ok? ==>
      |Tables(creates, comments).value| == |creates|
      && forall k :: 0 <= k < |creates| ==>
        Tables(creates, comments).value[k] == TableInfo(creates[k].table[0].table, Columns(creates[k].createDefinitions.value, comments))
    decreases |creates|
  {
    if creates != [] {
      TablesOfCreates(creates[1..], comments);
      if WellFormed(creates[0]) && Tables(creates[1..], comments).Ok? {
        var ts := Tables(creates[1..], comments).value;
        assert Tables(creates, comments).value == [TableInfo(creates[0].table[0].table, Columns(creates[0].createDefinitions.value, comments))] + ts;
        forall k | 1 <= k < |creates| ensures Tables(creates, comments).value[k] == ts[k - 1] && creates[k] == creates[1..][k - 1] {
        }
      } else if WellFormed(creates[0]) {
        var k :| 0 <= k < |creates[1..]| && !WellFormed(creates[1..][k]);
        assert !WellFormed(creates[k + 1]);
      }
    }
  }

  /** A failed extraction reports the error of the first create statement that lacks a table
      reference or a definition list. */
  lemma {:induction false} TablesFirstError(creates: seq<Statement>, comments: map<string, string>)
    requires Tables(creates, comments).Err?
    ensures exists k ::
      && 0 <= k < |creates| && !WellFormed(creates[k])
      && TableOf(creates[k], comments) == Err(Tables(creates, comments).error)
      && forall m :: 0 <= m < k ==> WellFormed(creates[m])
    decreases |creates|
  {
    var r := Tables(creates, comments);
    if WellFormed(creates[0]) {
      TablesFirstError(creates[1..], comments);
      var k :| 0 <= k < |creates[1..]| && !WellFormed(creates[1..][k])
        && TableOf(creates[1..][k], comments) == Err(Tables(creates[1..], comments).error)
        && forall m :: 0 <= m < k ==> WellFormed(creates[1..][m]);
      forall m | 0 <= m < k + 1 ensures WellFormed(creates[m]) {
        if m > 0 { assert creates[m] == creates[1..][m - 1]; }
      }
      assert creates[k + 1] == creates[1..][k];
    } else {
      assert TableOf(creates[0], comments) == Err(r.error);
    }
  }

  /** Input with no create statement yields no table. */
  lemma NoCreateNoTables(ast: ParseResult, comments: map<string, string>)
    requires forall k :: 0 <= k < |Statements(ast)| ==> !IsCreate(Statements(ast)[k])
    ensures Extract(ast, comments) == Ok([])
  {
    CreateStatementsFilter(Statements(ast));
  }

  /** One create statement with a table reference and a definition list yields one table. Its
      columns are the list's column definitions, in declaration order; other definitions (a
      `PRIMARY KEY (...)` or `KEY ...` line) contribute nothing. */
  lemma SingleCreateTable(stmt: Statement, comments: map<string, string>)
    requires IsCreate(stmt) && WellFormed(stmt)
    ensures Extract(Single(stmt), comments).Ok?
    ensures |Extract(Single(stmt), comments).value| == 1
    ensures var t := Extract(Single(stmt), comments).value[0];
      var cols := ColumnDefinitions(stmt.createDefinitions.value);
      t.tableName == stmt.table[0].table
      && |t.columns| == |cols|
      && forall j :: 0 <= j < |t.columns| ==>
           && t.columns[j].name == cols[j].column
           && t.columns[j].dataType == cols[j].definition.dataType
           && t.columns[j].constraints == ConstraintLabels(cols[j].definition)
  {
    var defs := stmt.createDefinitions.value;
    assert CreateStatements([stmt]) == [stmt];
    TablesOfCreates([stmt], comments);
    ColumnsOfColumnDefinitions(defs, comments);
  }

  /** The table reference is checked before the definition list: a statement missing both
      reports the missing table reference. */
  lemma TableOfCheckOrder(stmt: Statement, comments: map<string, string>)
    ensures |stmt.table| == 0 ==> TableOf(stmt, comments) == Err(MissingTableReference)
    ensures |stmt.table| > 0 && stmt.createDefinitions.None? ==> TableOf(stmt, comments) == Err(MissingDefinitionList)
    ensures TableOf(stmt, comments).Ok? <==> WellFormed(stmt)
  {
  }

  /** The comment depends on the column name only: two columns of the same name get the same
      comment, even in different tables. */
  lemma SameNameSameComment(ast: ParseResult, comments: map<string, string>, i: nat, j: nat, i': nat, j': nat)
    requires Extract(ast, comments).Ok?
    requires i < |Extract(ast, comments).value| && j < |Extract(ast, comments).value[i].columns|
    requires i' < |Extract(ast, comments).value| && j' < |Extract(ast, comments).value[i'].columns|
    requires Extract(ast, comments).value[i].columns[j].name == Extract(ast, comments).value[i'].columns[j'].name
    ensures Extract(ast, comments).value[i].columns[j].comment == Extract(ast, comments).value[i'].columns[j'].comment
  {
    var creates := CreateStatements(Statements(ast));
    TablesOfCreates(creates, comments);
    ColumnCommentByName(creates[i].createDefinitions.value, comments, j);
    ColumnCommentByName(creates[i'].createDefinitions.value, comments, j');
  }

  lemma ColumnCommentByName(defs: seq<CreateDefinition>, comments: map<string, string>, j: nat)
    requires j < |Columns(defs, comments)|
    ensures Columns(defs, comments)[j].comment == CommentFor(comments, Columns(defs, comments)[j].name)
  {
    ColumnsOfColumnDefinitions(defs, comments);
  }
}
