# ER diagram generator: extraction and Mermaid markup, in Dafny

The web page of this tool takes MySQL `CREATE TABLE` text and renders an entity-relationship
diagram. The page depends on two third-party libraries: a SQL parser that turns the text into
statement trees, and Mermaid, which renders diagram markup to SVG. Its own logic sits between
them in `app/page.tsx`. This project models that logic and proves properties about it:

- `extractConstraints` maps a column definition's flags to ordered labels. The labels are
  `PK`, `NOT NULL`, `UNIQUE` and `DEFAULT <value>`. Model: module `Constraints`.
- `extractTableInfo` has two parts:
  - It normalises the parser's result to an array.
  - It builds a column-name → comment dictionary from two scans of the raw SQL. Module
    `Comments` models the dictionary.
  - It keeps the `create` statements and, in each one, the `column` definitions. Each column
    gets its constraints and its comment. Module `Extractor` models this part.
- `generateMermaidCode` serialises the tables into `erDiagram` text. Module `Mermaid`.
- The synchronous part of `generateDiagram` runs extraction, then generation. An error thrown
  on the way is caught and no diagram is produced. Module `Pipeline`.

`Schema` holds the data:
- the parser output (one statement or an array of them, with `type`, `table`,
  `create_definitions` and the column flags);
- the two comment scans' matches;
- the `TableInfo`/`ColumnInfo` records;
- the two errors extraction can throw.

The form of each part follows the source:
- The comment scans are `while` loops that update a dictionary. They appear as loops in the
  method `ExtractTableInfo`.
- `extractConstraints` pushes onto an array. It is the method `ExtractConstraints`.
- `generateMermaidCode` appends to a string inside nested `forEach` loops. It is the method
  `GenerateMermaidCode` with nested `while` loops. The per-column callback is the method
  `AppendColumnLine`.
- The statement and column processing is `filter`/`map`. It is modelled as recursive
  functions.

Each method is proved equal to a specification function. The properties are proved about
those functions.

Three behaviours of the code are modelled as errors:
- A create statement without a table reference throws at `createStmt.table[0].table`
  (app/page.tsx:79). No placeholder name is substituted. Here this is `MissingTableReference`.
- A definition list that is `null` makes `.map` throw (app/page.tsx:80). Here this is
  `MissingDefinitionList`.
- Either throw ends the whole extraction, and `generateDiagram` only catches it.

A column's name is always read as `def.column.column` (app/page.tsx:82), so here it is one
string. There is no branch over other shapes of the parser's column reference.

## Model

| member | source | states |
|---|---|---|
| `Extractor.Statements` | app/page.tsx:60-62 | Definition of the normalisation. A single statement becomes a one-element list and an array is kept as it is. `Extract`, `SingleIsOneElementArray` and `ExtractTableInfo` refer to it. |
| `Extractor.CreateStatements` | app/page.tsx:78 | Definition of `filter(stmt => stmt.type === 'create')`: keeps the create statements in order. Its properties are `CreateStatementsFilter` and `CreateStatementsAppend`. |
| `Extractor.ColumnDefinitions` | app/page.tsx:81-93 | Definition of the definitions that survive `map(... : null).filter(Boolean)`: those whose resource is "column", in order. Its properties are `ColumnDefinitionsFilter` and `ColumnDefinitionsAppend`. |
| `Extractor.Columns` | app/page.tsx:80-93 | Definition of the column map and filter. Each column definition gives its name, data type, constraint labels and dictionary comment; every other definition gives nothing. `ColumnsOfColumnDefinitions` relates it to `ColumnDefinitions`. |
| `Extractor.TableOf` | app/page.tsx:79-95 | Definition of one create statement's table. An empty table list throws first (line 79). A missing definition list throws next (line 80). Otherwise the table is named by the first table reference and holds `Columns`. `TableOfCheckOrder` states the order of the two checks. |
| `Extractor.Tables` | app/page.tsx:78-96 | Definition of the outer `map`. The first create statement whose `TableOf` throws ends extraction with that error; otherwise there is one table per statement, in order. Its properties are `TablesOfCreates` and `TablesFirstError`. |
| `Extractor.Extract` | app/page.tsx:59-97 | Definition of extractTableInfo's result for a given dictionary: `Tables` of the create statements of the normalised input. `ExtractTableInfo` is proved equal to it. |
| `Comments.Dictionary` | app/page.tsx:66-76 | Definition of the dictionary as the matches stored one after another, each overwriting its name's entry. `ExtractTableInfo`'s loops are proved to build it, and `DictionaryLastWins`, `DictionaryAppend` and `SecondPassOverrides` state its meaning. |
| `Comments.CommentFor` | app/page.tsx:87 | Definition of the corrected lookup: the dictionary entry for the name, or `""` when there is none. Its property is `CommentEmptyIffUnmatched`. |
| `Comments.StoreAsWritten` | app/page.tsx:69-75 | Definition of the assignment `comments[name] = text` on the object `{}`. It stores under every name except `__proto__`, whose inherited setter ignores a string. |
| `Comments.DictionaryAsWritten` | app/page.tsx:66-76 | Definition of the as-written object after both scans: the matches stored in order with `StoreAsWritten`. `AsWrittenStoresAllButProto`, `ProtoCommentIsLost` and `AsWrittenAgreesOffPrototype` are about it. |
| `Comments.CommentAsWritten` | app/page.tsx:66-87 | Definition of the as-written lookup `comments[name] \|\| ''`. It gives the own entry, then an inherited Object.prototype member's text, then `""`. `ConstructorColumnGetsComment` and `AsWrittenLookupAgrees` are about it. |
| `Constraints.ConstraintLabels` | app/page.tsx:99-106 | Definition of the label list. `ExtractConstraints` is proved equal to it. `ConstraintLabelsDescribe`, `DescribesOnlyConstraintLabels` and `ConstraintLabelsPresence` state what it contains. |
| `Mermaid.Join` | app/page.tsx:115 | Definition of `Array.prototype.join(', ')`: the parts with the separator between neighbours. `JoinHasNoBreak` and `JoinHasNoQuote` are about it. |
| `Mermaid.ColumnText` | app/page.tsx:113-119 | Definition of a column's line without its break: the type and name, then the quoted joined constraints when there are any, then the quoted comment when it is not empty. `AppendColumnLine` is proved to append it, and `ColumnTextQuotes` counts its segments. |
| `Mermaid.MermaidCode` | app/page.tsx:108-126 | Definition of the markup: the header, then per table its opening line, its column lines and its closing line. `GenerateMermaidCode` is proved equal to it, and `MermaidCodeIsLines`, `MermaidLines` and `MermaidHeader` state its shape. |
| `Constraints.ExtractConstraints` | app/page.tsx:99-106 | Pushing a label per set flag builds the ordered label list. The result meets the independent description: exactly the labels of the set flags, in strictly increasing rank PK < NOT NULL < UNIQUE < DEFAULT. |
| `Constraints.ConstraintLabelsDescribe` | app/page.tsx:99-106 | The label list contains exactly the labels of the set flags, in the fixed order, with no label repeated. |
| `Constraints.DescribesOnlyConstraintLabels` | app/page.tsx:99-106 | Only one list meets that description. Any list of the set flags' labels in the fixed order is the one the function builds. |
| `Constraints.StrictlyRankedUnique` | app/page.tsx:99-106 | Two lists in strictly increasing rank that have the same elements are equal. This is the proof step behind the uniqueness above. |
| `Constraints.DefaultLabel` | app/page.tsx:104 | For every value, the DEFAULT label carries the "DEFAULT " prefix and ranks after PK, NOT NULL and UNIQUE, and the value reads back after the prefix. |
| `Constraints.ConstraintLabelsPresence` | app/page.tsx:101-104 | Each of PK, NOT NULL and UNIQUE is present iff its flag is set. A DEFAULT label is present iff `default_val` is, and it is "DEFAULT " followed by the value's text. There are at most 4 labels, and none iff no flag is set. |
| `Comments.DictionaryLastWins` | app/page.tsx:66-76 | A name is in the dictionary iff some match has that name. Its entry is the text of the last match with that name. |
| `Comments.DictionaryAppend` | app/page.tsx:66-76 | Running the first scan and then the second gives the first scan's dictionary overridden by the second's. |
| `Comments.SecondPassOverrides` | app/page.tsx:68-76 | A second-scan match overrides a first-scan entry for the same name. A name the second scan never matches keeps its first-scan comment. |
| `Comments.CommentEmptyIffUnmatched` | app/page.tsx:65-87 | When every matched text is non-empty (the scans capture at least one character), a column's comment is `""` iff no match names it. |
| `Comments.ConstructorColumnGetsComment` | app/page.tsx:66-87 | For every match list without a `constructor` match, the as-written lookup on the object `{}` gives the column `constructor` the inherited Object constructor as its comment. V8 prints that as "function Object() { [native code] }"; other engines print it differently, some with line breaks. The dictionary model gives `""`. |
| `Comments.ProtoCommentIsLost` | app/page.tsx:66-87 | As written, storing a comment for a column named `__proto__` is ignored, and its lookup gives "[object Object]". The dictionary model keeps the comment. |
| `Comments.AsWrittenStoresAllButProto` | app/page.tsx:66-76 | For every match list, a name other than `__proto__` is in the as-written object iff it is in the dictionary, with the same text. |
| `Comments.AsWrittenLookupAgrees` | app/page.tsx:66-87 | For every match list, `__proto__` matches included, a name outside Object.prototype's members gets the same comment from the as-written lookup as from the dictionary. |
| `Comments.AsWrittenAgreesOffPrototype` | app/page.tsx:66-76 | When no match is named `__proto__`, the as-written object holds exactly the dictionary's entries. |
| `Comments.InheritedText` | app/page.tsx:87 | An inherited member's text is never empty, so `\|\| ''` does not replace it. |
| `Extractor.ExtractTableInfo` | app/page.tsx:59-97 | The two scan loops build exactly the last-write-wins dictionary of the first scan's matches followed by the second's. The result is the tables of the create statements of the normalised parser result, built with that dictionary. |
| `Extractor.SingleIsOneElementArray` | app/page.tsx:60-62 | A single statement gives the same result as a one-element array. |
| `Extractor.CreateStatementsFilter` | app/page.tsx:78 | The kept statements are exactly the input's `create` statements. Without a create statement nothing is kept. When all statements are creates, all are kept. |
| `Extractor.CreateStatementsAppend` | app/page.tsx:78 | The filter commutes with concatenation, so the kept statements keep their input order. |
| `Extractor.ColumnDefinitionsFilter` | app/page.tsx:80-93 | The kept definitions are exactly those whose resource is "column". |
| `Extractor.ColumnDefinitionsAppend` | app/page.tsx:80-93 | The column filter commutes with concatenation, so declaration order is kept. |
| `Extractor.ColumnsOfColumnDefinitions` | app/page.tsx:80-93 | A table has one column per column definition, in declaration order. Name and type come from the definition. The constraints are the definition's labels, and the comment is the dictionary entry for the name, or `""`. |
| `Extractor.TablesOfCreates` | app/page.tsx:78-96 | Extraction succeeds iff every create statement has a table reference and a definition list. It then gives one table per create statement, in order, named by the first table reference. |
| `Extractor.TableOfCheckOrder` | app/page.tsx:79-80 | A statement without a table reference reports `MissingTableReference`, even when its definition list is also missing. One with a reference but no definition list reports `MissingDefinitionList`. A statement's table is built iff it has both. |
| `Extractor.TablesFirstError` | app/page.tsx:78-80 | A failed extraction reports the error of the first create statement without a table reference or without a definition list, in that order of checks. |
| `Extractor.NoCreateNoTables` | app/page.tsx:78 | Input without a create statement yields an empty table list, not an error. |
| `Extractor.SingleCreateTable` | app/page.tsx:78-96 | One create statement with a table reference and a definition list yields exactly one table, named by that reference. Its columns are the list's column definitions, in declaration order, with their names, data types and constraint labels. Key and index lines contribute nothing. |
| `Extractor.SameNameSameComment` | app/page.tsx:87 | A column's comment depends on its name only, so columns with the same name get the same comment, even in different tables. |
| `Mermaid.GenerateMermaidCode` | app/page.tsx:108-126 | Starting from the header and appending inside the two loops builds the markup function's text. |
| `Mermaid.AppendColumnLine` | app/page.tsx:112-121 | The per-column callback appends exactly that column's line and its line break. |
| `Mermaid.LinesOfUnlines` | app/page.tsx:108-126 | Lines without line breaks, written one after another with a break each, read back as the same lines. |
| `Mermaid.MermaidCodeIsLines` | app/page.tsx:109-123 | The markup is the header line, then per table its opening line, its column lines and its closing line, each followed by a line break. |
| `Mermaid.MermaidLines` | app/page.tsx:108-126 | When no text holds a line break, the markup reads back as the header line and then, per table in input order, its opening line, one line per column in input order and its closing line. That is 1 + Σ(columns + 2) lines, with no sorting or deduplication. |
| `Mermaid.MermaidHeader` | app/page.tsx:108-125 | The markup always starts with "erDiagram\n". It is exactly that iff the table list is empty. |
| `Mermaid.BlocksAppend` | app/page.tsx:110-123 | The blocks of concatenated table lists are the concatenated blocks, so tables appear in input order. |
| `Mermaid.MermaidCodeAppend` | app/page.tsx:108-126 | The markup of `a + b` is the markup of `a` followed by the blocks of `b`. |
| `Mermaid.ColumnTextQuotes` | app/page.tsx:113-120 | With quote-free texts, a column line holds two double quotes if the constraint list is non-empty, plus two if the comment is non-empty, and otherwise none. So each optional segment appears exactly when it has content. |
| `Mermaid.AllTableLinesCount` | app/page.tsx:110-123 | The tables contribute Σ(columns + 2) lines. |
| `Pipeline.DiagramMarkup` | app/page.tsx:28-30 | Markup is produced iff extraction succeeds, and it is the markup of the extracted tables. Otherwise the extraction error is reported and there is no markup. |
| `Pipeline.NoCreateGivesBareDiagram` | app/page.tsx:59-126 | Input with no create statement gives exactly "erDiagram\n". |
| `Pipeline.ExtractedMarkupLines` | app/page.tsx:59-126 | When no input text holds a line break, a successful extraction's markup reads back as the header, then per create statement in order its table's lines. That is 1 + Σ(columns + 2) lines. |
| `Pipeline.ColumnsHaveNoBreak` | app/page.tsx:80-93 | Columns built from break-free definitions and comments contain no line break. |

## Findings

| source | as written | input that shows it | evidently intended | confidence | as-written member | corrected member |
|---|---|---|---|---|---|---|
| app/page.tsx:66-87 | `comments` is the object literal `{}`, and `comments[columnName] \|\| ''` also finds members inherited from Object.prototype | the column `constructor` in `CREATE TABLE t (constructor INT)`, with no COMMENT clause: its comment becomes the Object constructor's source text, "function Object() { [native code] }" in V8 (other engines print it with line breaks, which also splits the markup line), and that text goes into the markup | a column no scan matched gets the empty comment | not executed | `Comments.ConstructorColumnGetsComment` (on `Comments.CommentAsWritten`) | `Comments.CommentEmptyIffUnmatched` (on `Comments.CommentFor`) |
| app/page.tsx:66-87 | `comments['__proto__'] = text` is ignored by the object's `__proto__` setter | a column line `` `__proto__` INT COMMENT 'id' ``, which the first scan matches with the name `__proto__`: the column's comment becomes "[object Object]" and 'id' is lost | every match is stored under its name | not executed | `Comments.ProtoCommentIsLost` (on `Comments.DictionaryAsWritten`) | `Comments.DictionaryLastWins` (on `Comments.Dictionary`) |

The rest of the model (`Extractor`, `Pipeline`) uses the corrected dictionary. It maps each
name to the last text stored for it and to nothing else. The as-written object is modelled
only in `Comments`. The two lookups differ only on Object.prototype's member names.
`Comments.AsWrittenLookupAgrees` proves they agree on every other name, for every match list.
`Comments.AsWrittenAgreesOffPrototype` proves the whole object equals the dictionary when no
match is named `__proto__`.

## Left out

- The `Home` component's React state, the JSX, the modal and the loading and error display
  (app/page.tsx:11-24, 128-177): these are UI.
- `mermaid.initialize` and the awaited `mermaid.render` (app/page.tsx:32-50): an external,
  asynchronous renderer. `Pipeline.DiagramMarkup` stops at the markup text.
- `Parser.astify` (app/page.tsx:26-28): an external SQL parser. Its result is an input
  datatype, and a parse error, raised before extraction, is not modelled.
- The two regular expressions (app/page.tsx:65, 73: greedy `.*`, `\w`, case-insensitive
  global search). Each scan is a given sequence of (name, text) matches, so which names and
  texts the regexes actually capture is not modelled.
- How `${default_val.value}` turns the parser's value into text: `ColumnSpec.defaultVal`
  holds the resulting text. JavaScript truthiness of the parser's flags is modelled as
  booleans.
- The `console.log` calls (app/page.tsx:89, 124): logging only.
- app/components/DownloadButton.tsx (Blob, object URL, link click), app/layout.tsx (metadata,
  analytics) and app/components/Footer.tsx (static markup): browser I/O and page scaffolding.
- Mermaid.MermaidLines: the line structure is stated only for texts without line breaks. The
  source embeds texts unescaped, so a break inside a name or comment starts a new line of
  markup.
- Mermaid.ColumnTextQuotes: the segment count is stated only for texts without double
  quotes, for the same reason.
