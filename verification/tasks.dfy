/**
 The persisted to-do entry and the two parts of a query that the task list
 asks of the store: a filter condition on `checked` and a sort key path.
 Timestamps are integers, because the task list only ever compares them.
 */
module Tasks {
  import opened Options

  /** One to-do entry: a stable identifier, its label, the moment it was
      created and, once it is done, the moment it was completed. */
  datatype TaskItem = TaskItem(uid: int, title: string, added: int, checked: Option<int>)

  /** The two filter conditions the task list uses: `checked == nil` and
      `checked != nil`. */
  datatype Condition = CheckedIsNil | CheckedIsNotNil

  predicate Holds(c: Condition, t: TaskItem) {
    match c
    case CheckedIsNil => t.checked.None?
    case CheckedIsNotNil => t.checked.Some?
  }

  /** The two key paths the task list sorts by: `added` and `checked`. */
  datatype KeyPath = Added | Checked

  /** The value of the key path `path` on `t`; `checked` may be absent. */
  function KeyOf(path: KeyPath, t: TaskItem): Option<int> {
    match path
    case Added => Some(t.added)
    case Checked => t.checked
  }

  /** Ascending order on possibly absent keys: an absent key sorts before
      every present one, present keys compare as integers. */
  predicate KeyLeq(a: Option<int>, b: Option<int>) {
    match a
    case None => true
    case Some(x) => b.Some? && x <= b.value
  }

  /** `KeyLeq` is a total order: every pair is comparable, and two keys
      that each sort at or below the other are equal. */
  lemma KeyLeqTotalOrder(a: Option<int>, b: Option<int>, c: Option<int>)
    ensures KeyLeq(a, a)
    ensures KeyLeq(a, b) || KeyLeq(b, a)
    ensures KeyLeq(a, b) && KeyLeq(b, a) ==> a == b
    ensures KeyLeq(a, b) && KeyLeq(b, c) ==> KeyLeq(a, c)
  {
  }

  /** `s` is in the order `sorted(byKeyPath: path, ascending: false)` asks
      for: every item's key is at least the key of every item after it. */
  predicate SortedDescending(path: KeyPath, s: seq<TaskItem>) {
    forall i, j :: 0 <= i < j < |s| ==> KeyLeq(KeyOf(path, s[j]), KeyOf(path, s[i]))
  }
}
