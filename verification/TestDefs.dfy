/** A test definition as the execution of a test suite reads it. */
module TestDefs {
  import opened Wrappers

  type Table = (string, string)

  datatype Scope = ColumnScope | TableScope | CustomScope | ReferentialScope | TableGroupScope

  /**
   An empty string stands for an absent name. Measure and condition are the SQL after
   parameters have been applied; errors are the texts noted for the test so far.
   */
  datatype TestDef = TestDef(
    id: nat, testType: string, scope: Scope,
    schemaName: string, tableName: string, columnName: string,
    groupbyNames: string, windowDateColumn: string,
    matchSchemaName: string, matchTableName: string, matchColumnNames: string, matchGroupbyNames: string,
    measure: string, testOperator: string, testCondition: string,
    predict: bool, lowerTolerance: Option<string>, upperTolerance: Option<string>,
    errors: seq<string>)
  {
    function table(): Table { (schemaName, tableName) }
  }
}
