/** MYSqlTask.cs: one unit of SQL work waiting in the dispatcher's queue. */
module Tasks {
  import opened Wrappers

  /**
   * The delegate that consumes a query's rows. The model only needs to tell
   * delegates apart: the row reader that DatabaseTable.All builds for a table,
   * or any delegate a caller of Database.Execute supplies.
   */
  datatype ReaderCallback = TableRowReader(tableName: string) | CallerDelegate(handle: nat)

  /**
   * A task: `id` stands for the object's identity (tasks are numbered in the
   * order they are created), `command` is the SQL text and `readerCallback` is
   * absent for statements that return no rows. The task's Finished flag is kept
   * by the database as the set of identities of finished tasks.
   */
  datatype MySqlTask = MySqlTask(id: nat, command: string, readerCallback: Option<ReaderCallback>)
}
