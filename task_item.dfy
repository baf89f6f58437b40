/** The task record the client holds and its derived due status. */
module TaskItem {
  import opened Wrappers

  /** The coarse due status shown beside a task. */
  datatype DueStatus = DueNone | Today | Overdue | Upcoming

  /**
   * A task as held in memory. Each text field may be absent (`undefined`),
   * since the server's documents are mapped without checking.
   */
  datatype Task = Task(
    id: Option<string>,
    title: Option<string>,
    description: Option<string>,
    completed: bool,
    userId: Option<string>,
    dueDate: Option<string>,
    createdAt: Option<string>,
    updatedAt: Option<string>)
}
