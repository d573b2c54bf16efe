/** The records the views hold, as the backend returns them. */
module Records {
  import opened Common

  /** A row of `tasks_c`. The lookup `category_id_c` is kept as the Id it
      refers to; absent text fields are `None`. Timestamps are milliseconds. */
  datatype Task = Task(
    Id: int,
    title: Option<string>,
    description: Option<string>,
    priority: Option<string>,
    dueDate: Option<int>,
    categoryId: Option<int>,
    completed: bool,
    createdAt: Option<int>,
    completedAt: Option<int>)

  /** An entry of the in-memory category store. */
  datatype Category = Category(Id: int, name: string, color: string, icon: string, taskCount: int)
}
