/**
 The task list's sectioning rule: every time the task collection changes,
 the whole collection is turned into two display sections, "Due Tasks"
 (not yet checked, newest added first) followed by "Done Tasks" (checked,
 most recently checked first).
 */
module Sectioning {
  import opened Options
  import opened Tasks
  import Query

  /** A named, ordered group of tasks shown by the list; it is never stored. */
  datatype Section = Section(model: string, items: seq<TaskItem>)

  const DueTitle: string := "Due Tasks"
  const DoneTitle: string := "Done Tasks"

  /** Every item of `s` is still to do. */
  predicate AllDue(s: seq<TaskItem>) {
    forall i :: 0 <= i < |s| ==> s[i].checked.None?
  }

  /** Every item of `s` has been checked. */
  predicate AllDone(s: seq<TaskItem>) {
    forall i :: 0 <= i < |s| ==> s[i].checked.Some?
  }

  /** No item of `s` was added later than an item before it. */
  predicate NewestAddedFirst(s: seq<TaskItem>) {
    forall i, j :: 0 <= i < j < |s| ==> s[j].added <= s[i].added
  }

  /** No item of `s` was checked later than an item before it. */
  predicate NewestCheckedFirst(s: seq<TaskItem>) {
    forall i, j :: 0 <= i < j < |s| ==>
      s[i].checked.Some? && s[j].checked.Some? ==> s[j].checked.value <= s[i].checked.value
  }

  /** Reference definition, stated on the task fields alone: `r` is an
      admissible two-section view of `tasks`, whatever order it gives to
      items with equal timestamps. */
  predicate IsSectioning(tasks: seq<TaskItem>, r: seq<Section>) {
    && |r| == 2
    && r[0].model == DueTitle
    && r[1].model == DoneTitle
    && AllDue(r[0].items)
    && AllDone(r[1].items)
    && multiset(r[0].items) + multiset(r[1].items) == multiset(tasks)
    && NewestAddedFirst(r[0].items)
    && NewestCheckedFirst(r[1].items)
  }

  /** On items that are all checked, the reference order by `checked` is
      the order `sorted(byKeyPath: "checked", ascending: false)` asks for. */
  lemma CheckedOrderIsKeyOrder(s: seq<TaskItem>)
    requires AllDone(s)
    ensures NewestCheckedFirst(s) <==> SortedDescending(Checked, s)
  {
  }

  /** The reference order by `added` is the order
      `sorted(byKeyPath: "added", ascending: false)` asks for. */
  lemma AddedOrderIsKeyOrder(s: seq<TaskItem>)
    ensures NewestAddedFirst(s) <==> SortedDescending(Added, s)
  {
  }

  /** The items kept by `checked == nil` and by `checked != nil` together
      are the whole collection, whatever the sort keys. */
  lemma SelectionsPartition(tasks: seq<TaskItem>, duePath: KeyPath, donePath: KeyPath)
    ensures multiset(Query.Select(CheckedIsNil, duePath, tasks)) + multiset(Query.Select(CheckedIsNotNil, donePath, tasks))
         == multiset(tasks)
  {
  }

  /** The view the task list shows: the unchecked tasks sorted by `added`
      and the checked ones sorted by `checked`, both largest first. */
  function Sectioned(tasks: seq<TaskItem>): (r: seq<Section>)
    ensures |r| == 2
    ensures r[0].model == DueTitle && r[1].model == DoneTitle
    ensures forall t :: t in r[0].items <==> t in tasks && t.checked.None?
    ensures forall t :: t in r[1].items <==> t in tasks && t.checked.Some?
    ensures multiset(r[0].items) + multiset(r[1].items) == multiset(tasks)
    ensures NewestAddedFirst(r[0].items)
    ensures NewestCheckedFirst(r[1].items)
  {
    var due := Query.Select(CheckedIsNil, Added, tasks);
    var done := Query.Select(CheckedIsNotNil, Checked, tasks);
    SelectionsPartition(tasks, Added, Checked);
    AddedOrderIsKeyOrder(due);
    CheckedOrderIsKeyOrder(done);
    [Section(DueTitle, due), Section(DoneTitle, done)]
  }

  /** In any admissible view, each task occurs in "Due Tasks" exactly as
      often as it occurs in the collection when it is unchecked, and not at
      all otherwise; "Done Tasks" likewise for checked tasks. */
  lemma SectionCounts(tasks: seq<TaskItem>, r: seq<Section>, t: TaskItem)
    requires IsSectioning(tasks, r)
    ensures multiset(r[0].items)[t] == if t.checked.None? then multiset(tasks)[t] else 0
    ensures multiset(r[1].items)[t] == if t.checked.Some? then multiset(tasks)[t] else 0
  {
  }

  /** The view the task list computes is an admissible one. */
  lemma SectionedIsSectioning(tasks: seq<TaskItem>)
    ensures IsSectioning(tasks, Sectioned(tasks))
  {
  }

  /** Any two admissible views of the same collection hold the same tasks
      in each section and show the same timestamp at every position: they
      differ at most in the order of tasks with equal timestamps. */
  lemma SectioningsAgree(tasks: seq<TaskItem>, r1: seq<Section>, r2: seq<Section>)
    requires IsSectioning(tasks, r1)
    requires IsSectioning(tasks, r2)
    ensures multiset(r1[0].items) == multiset(r2[0].items)
    ensures multiset(r1[1].items) == multiset(r2[1].items)
    ensures |r1[0].items| == |r2[0].items| && |r1[1].items| == |r2[1].items|
    ensures forall i :: 0 <= i < |r1[0].items| ==> r1[0].items[i].added == r2[0].items[i].added
    ensures forall i :: 0 <= i < |r1[1].items| ==> r1[1].items[i].checked == r2[1].items[i].checked
  {
    forall t ensures multiset(r1[0].items)[t] == multiset(r2[0].items)[t]
                  && multiset(r1[1].items)[t] == multiset(r2[1].items)[t] {
      SectionCounts(tasks, r1, t);
      SectionCounts(tasks, r2, t);
    }
    AddedOrderIsKeyOrder(r1[0].items);
    AddedOrderIsKeyOrder(r2[0].items);
    CheckedOrderIsKeyOrder(r1[1].items);
    CheckedOrderIsKeyOrder(r2[1].items);
    Query.SortedPermutationsShareKeys(Added, r1[0].items, r2[0].items);
    Query.SortedPermutationsShareKeys(Checked, r1[1].items, r2[1].items);
  }

  /** No two different unchecked tasks were added at the same moment, and
      no two different checked tasks were checked at the same moment. */
  predicate NoTies(tasks: seq<TaskItem>) {
    forall x, y :: x in tasks && y in tasks && x != y ==>
      && (x.checked.None? && y.checked.None? ==> x.added != y.added)
      && (x.checked.Some? && y.checked.Some? ==> x.checked != y.checked)
  }

  /** Without ties, the tasks of each section of an admissible view have
      pairwise different sort keys. */
  lemma NoTiesMeansDistinctKeys(tasks: seq<TaskItem>, r: seq<Section>)
    requires IsSectioning(tasks, r)
    requires NoTies(tasks)
    ensures Query.KeysDistinct(Added, r[0].items)
    ensures Query.KeysDistinct(Checked, r[1].items)
  {
    forall x, y | x in r[0].items && y in r[0].items && KeyOf(Added, x) == KeyOf(Added, y)
      ensures x == y
    {
      assert x in multiset(r[0].items) && y in multiset(r[0].items);
      SectionCounts(tasks, r, x);
      SectionCounts(tasks, r, y);
      assert x in multiset(tasks) && y in multiset(tasks);
    }
    forall x, y | x in r[1].items && y in r[1].items && KeyOf(Checked, x) == KeyOf(Checked, y)
      ensures x == y
    {
      assert x in multiset(r[1].items) && y in multiset(r[1].items);
      SectionCounts(tasks, r, x);
      SectionCounts(tasks, r, y);
      assert x in multiset(tasks) && y in multiset(tasks);
    }
  }

  /** Without ties the rule leaves no choice: the computed view is the only
      admissible one. */
  lemma SectioningUnique(tasks: seq<TaskItem>, r: seq<Section>)
    requires IsSectioning(tasks, r)
    requires NoTies(tasks)
    ensures r == Sectioned(tasks)
  {
    var s := Sectioned(tasks);
    SectionedIsSectioning(tasks);
    SectioningsAgree(tasks, r, s);
    NoTiesMeansDistinctKeys(tasks, r);
    AddedOrderIsKeyOrder(r[0].items);
    AddedOrderIsKeyOrder(s[0].items);
    CheckedOrderIsKeyOrder(r[1].items);
    CheckedOrderIsKeyOrder(s[1].items);
    Query.SortedPermutationUnique(Added, r[0].items, s[0].items);
    Query.SortedPermutationUnique(Checked, r[1].items, s[1].items);
    assert r[0] == s[0] && r[1] == s[1];
  }
}
