/** The values that flow through the ER diagram generator: what the SQL parser hands to the
    extractor, and the table model the extractor hands to the markup generator. */
module Schema {

  datatype Option<+T> = None | Some(value: T)

  /** The flags of one column definition, as the SQL parser reports them. Each flag is the
      JavaScript truthiness of the parser's field (`primary_key`, `not_null`, `unique`);
      `defaultVal` is present exactly when `default_val` is, and then holds the text that
      `default_val.value` turns into inside a template literal. */
  datatype ColumnSpec = ColumnSpec(
    dataType: string,
    primaryKey: bool,
    notNull: bool,
    unique: bool,
    defaultVal: Option<string>)

  /** One entry of `create_definitions`. Only entries whose `resource` is "column" carry a
      meaningful `column` and `definition`; index and constraint entries use other resources. */
  datatype CreateDefinition = CreateDefinition(resource: string, column: string, definition: ColumnSpec)

  /** One entry of a statement's `table` list. */
  datatype TableRef = TableRef(table: string)

  /** One parsed statement. `kind` is the parser's `type` ("create", "select", ...). An empty
      `table` stands for a missing or empty list; `None` for `createDefinitions` stands for a
      statement without a definition list (`null`). */
  datatype Statement = Statement(
    kind: string,
    table: seq<TableRef>,
    createDefinitions: Option<seq<CreateDefinition>>)

  /** The parser returns either one statement or an array of them. */
  datatype ParseResult = Single(statement: Statement) | Many(statements: seq<Statement>)

  /** One hit of a comment scan over the raw SQL: the column name and the quoted comment text. */
  datatype CommentMatch = CommentMatch(name: string, text: string)

  /** The extractor's output. */
  datatype ColumnInfo = ColumnInfo(name: string, dataType: string, constraints: seq<string>, comment: string)
  datatype TableInfo = TableInfo(tableName: string, columns: seq<ColumnInfo>)

  /** The two ways extraction throws: reading `table[0].table` when there is no first table
      reference, and calling `map` on a missing definition list. */
  datatype ExtractError = MissingTableReference | MissingDefinitionList

  datatype Result<+T> = Ok(value: T) | Err(error: ExtractError)
}
