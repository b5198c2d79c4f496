/**
 Concrete collections and the view the sectioning rule gives for them.
 Each is derived from the general lemmas: the expected view is admissible
 and the collection has no ties, so it is the computed view.
 */
module Scenarios {
  import opened Options
  import opened Tasks
  import opened Sectioning

  /** Three unchecked tasks added at times 1, 3 and 2, in that order, are
      listed 3, 2, 1 under "Due Tasks", and "Done Tasks" is empty but
      present. */
  lemma DueTasksNewestFirst(t1: TaskItem, t3: TaskItem, t2: TaskItem)
    requires t1.checked.None? && t3.checked.None? && t2.checked.None?
    requires t1.added == 1 && t3.added == 3 && t2.added == 2
    ensures Sectioned([t1, t3, t2]) == [Section("Due Tasks", [t3, t2, t1]), Section("Done Tasks", [])]
  {
    var tasks := [t1, t3, t2];
    var expected := [Section(DueTitle, [t3, t2, t1]), Section(DoneTitle, [])];
    assert multiset([t3, t2, t1]) == multiset(tasks);
    assert IsSectioning(tasks, expected);
    SectioningUnique(tasks, expected);
  }

  /** A task checked at time 5 and one checked at time 10 are listed
      10, 5 under "Done Tasks", after an empty "Due Tasks". */
  lemma DoneTasksMostRecentFirst(t5: TaskItem, t10: TaskItem)
    requires t5.checked == Some(5) && t10.checked == Some(10)
    ensures Sectioned([t5, t10]) == [Section("Due Tasks", []), Section("Done Tasks", [t10, t5])]
  {
    var tasks := [t5, t10];
    var expected := [Section(DueTitle, []), Section(DoneTitle, [t10, t5])];
    assert multiset([t10, t5]) == multiset(tasks);
    assert IsSectioning(tasks, expected);
    SectioningUnique(tasks, expected);
  }

  /** An empty collection still gives both sections, in their fixed order. */
  lemma EmptyCollection()
    ensures Sectioned([]) == [Section("Due Tasks", []), Section("Done Tasks", [])]
  {
  }
}
