/** The synchronous part of generateDiagram: the parser's result goes through the extractor and
    the markup generator; an error thrown on the way is caught and no markup is produced. */
module Pipeline {
  import opened Schema
  import opened Constraints
  import opened Comments
  import opened Extractor
  import opened Mermaid

  /** Extraction, then markup generation. An extraction error is what the page reports in
      place of a diagram. */
  method DiagramMarkup(ast: ParseResult, firstPass: seq<CommentMatch>, secondPass: seq<CommentMatch>)
    returns (markup: Result<string>)
    ensures markup.Ok? <==> Extract(ast, Dictionary(firstPass + secondPass)).Ok?
    ensures markup.Err? ==> markup.error == Extract(ast, Dictionary(firstPass + secondPass)).error
    ensures markup.Ok? ==> markup.value == MermaidCode(Extract(ast, Dictionary(firstPass + secondPass)).value)
  {
    var tableInfo := ExtractTableInfo(ast, firstPass, secondPass);
    match tableInfo
    case Err(e) =>
      markup := Err(e);
    case Ok(tables) =>
      var mermaidCode := GenerateMermaidCode(tables);
      markup := Ok(mermaidCode);
  }

  /** Input with no create statement gives the bare diagram header. */
  lemma NoCreateGivesBareDiagram(ast: ParseResult, comments: map<string, string>)
    requires forall k :: 0 <= k < |Statements(ast)| ==> !IsCreate(Statements(ast)[k])
    ensures Extract(ast, comments) == Ok([])
    ensures MermaidCode(Extract(ast, comments).value) == "erDiagram\n"
  {
    NoCreateNoTables(ast, comments);
    MermaidHeader([]);
  }

  predicate DefinitionHasNoBreak(d: CreateDefinition) {
    '\n' !in d.column && '\n' !in d.definition.dataType
    && (d.definition.defaultVal.Some? ==> '\n' !in d.definition.defaultVal.value)
  }

  predicate StatementHasNoBreak(s: Statement) {
    (forall k :: 0 <= k < |s.table| ==> '\n' !in s.table[k].table)
    && (s.createDefinitions.Some? ==>
          forall k :: 0 <= k < |s.createDefinitions.value| ==> DefinitionHasNoBreak(s.createDefinitions.value[k]))
  }

  predicate MatchesHaveNoBreak(matches: seq<CommentMatch>) {
    forall k :: 0 <= k < |matches| ==> '\n' !in matches[k].text
  }

  lemma CommentHasNoBreak(matches: seq<CommentMatch>, name: string)
    requires MatchesHaveNoBreak(matches)
    ensures '\n' !in CommentFor(Dictionary(matches), name)
  {
    DictionaryLastWins(matches, name);
    if HasMatch(matches, name) {
      var i := LastIndex(matches, name);
      assert '\n' !in matches[i].text;
    }
  }

  lemma ConstraintLabelsHaveNoBreak(spec: ColumnSpec)
    requires spec.defaultVal.Some? ==> '\n' !in spec.defaultVal.value
    ensures forall k :: 0 <= k < |ConstraintLabels(spec)| ==> '\n' !in ConstraintLabels(spec)[k]
  {
  }

  lemma {:induction false} ColumnsHaveNoBreak(defs: seq<CreateDefinition>, matches: seq<CommentMatch>)
    requires forall k :: 0 <= k < |defs| ==> DefinitionHasNoBreak(defs[k])
    requires MatchesHaveNoBreak(matches)
    ensures forall j :: 0 <= j < |Columns(defs, Dictionary(matches))| ==> ColumnHasNoBreak(Columns(defs, Dictionary(matches))[j])
    decreases |defs|
  {
    if defs != [] {
      ColumnsHaveNoBreak(defs[1..], matches);
      if IsColumn(defs[0]) {
        CommentHasNoBreak(matches, defs[0].column);
        ConstraintLabelsHaveNoBreak(defs[0].definition);
        assert DefinitionHasNoBreak(defs[0]);
      }
    }
  }

  /** When no table name, column name, type, default text or comment text in the input holds
      a line break, the markup of a successful extraction reads back line by line as the header,
      then per created table in input order its opening line, one line per column definition in
      declaration order and its closing line. */
  lemma ExtractedMarkupLines(ast: ParseResult, matches: seq<CommentMatch>)
    requires forall k :: 0 <= k < |Statements(ast)| ==> StatementHasNoBreak(Statements(ast)[k])
    requires MatchesHaveNoBreak(matches)
    requires Extract(ast, Dictionary(matches)).Ok?
    ensures Lines(MermaidCode(Extract(ast, Dictionary(matches)).value)) == DiagramLines(Extract(ast, Dictionary(matches)).value)
    ensures |Lines(MermaidCode(Extract(ast, Dictionary(matches)).value))| == LineBudget(Extract(ast, Dictionary(matches)).value)
  {
    var dict := Dictionary(matches);
    var creates := CreateStatements(Statements(ast));
    var ts := Extract(ast, dict).value;
    TablesOfCreates(creates, dict);
    CreateStatementsFilter(Statements(ast));
    forall i | 0 <= i < |ts| ensures TableHasNoBreak(ts[i]) {
      assert creates[i] in Statements(ast);
      assert StatementHasNoBreak(creates[i]);
      ColumnsHaveNoBreak(creates[i].createDefinitions.value, matches);
    }
    MermaidLines(ts);
  }
}
