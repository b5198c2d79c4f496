# QuickTodo task-list sectioning, modelled in Dafny

QuickTodo is an iOS to-do list. Its `TasksViewModel` turns the live
collection of `TaskItem`s from the task store into the two sections the
list shows. Every time the collection changes, the whole collection is
recomputed into:

- **"Due Tasks"**: the tasks whose `checked` is `nil`, sorted by `added`, newest first;
- **"Done Tasks"**: the tasks whose `checked` is set, sorted by `checked`, most recently completed first.

This project models that rule as a pure function and proves what it
promises. The promises are: exactly two sections in a fixed order, a
partition by `checked`, a permutation of the input, and both orderings.
The rule leaves the order of tasks with equal timestamps open, so the
model states the view by a reference predicate (`Sectioning.IsSectioning`)
that admits every such order. It then proves:

- the computed view is admissible;
- any two admissible views differ only in the order of tied tasks;
- without ties, the computed view is the only admissible one.

Files:

- `options.dfy`: `Option`, standing for a Swift optional.
- `tasks.dfy`: `TaskItem`, plus the parts of a store query the view uses.
  These are a filter condition on `checked` and a sort key path with its
  order on possibly absent keys.
- `query.dfy`: the behaviour requested by `filter("checked == nil")` and
  `sorted(byKeyPath:ascending: false)`. The sort is an insertion sort, one
  admissible choice among the orders the store may give to tied items.
- `sectioning.dfy`: `Section`, `Sectioned`, the reference predicate and the
  lemmas that relate them.
- `scenarios.dfy`: concrete collections and their views.

Timestamps (`Date` in the app) are integers, because the rule only compares
them. A `TaskItem` is a value. The multiset statements count a task that
occurs twice in the collection twice.

## Model

| member | source | states |
|---|---|---|
| Tasks.KeyLeqTotalOrder | QuickTodo/Controllers/TasksViewModel.swift:59-62 | the key order used for sorting by `added` or `checked` is reflexive, total, antisymmetric and transitive, so "largest first" is well defined |
| Query.Filter | QuickTodo/Controllers/TasksViewModel.swift:58-61 | `filter` keeps exactly the items the condition holds for: each kept item satisfies it, and each satisfying item is kept as often as it occurs in the input |
| Query.Insert | QuickTodo/Controllers/TasksViewModel.swift:59-62 | inserting into a descending sequence yields a descending sequence holding the old items plus the new one |
| Query.Sort | QuickTodo/Controllers/TasksViewModel.swift:59-62 | `sorted(byKeyPath:ascending: false)` yields a permutation of its input whose keys never increase |
| Query.Select | QuickTodo/Controllers/TasksViewModel.swift:57-62 | a filter followed by a descending sort holds exactly the matching input items, with their multiplicities, ordered largest key first |
| Query.SortedRemove | QuickTodo/Controllers/TasksViewModel.swift:59-62 | removing an item from a descending sequence keeps it descending |
| Query.LeadingKeysAgree | QuickTodo/Controllers/TasksViewModel.swift:59-62 | two descending orderings of the same items start with the same key |
| Query.SortedPermutationsShareKeys | QuickTodo/Controllers/TasksViewModel.swift:59-62 | any two descending orderings of the same items have equal length and show the same key at every position; the open choice is only the order among equal keys |
| Query.SortedPermutationUnique | QuickTodo/Controllers/TasksViewModel.swift:59-62 | when no two different items share a key, there is exactly one descending ordering |
| Sectioning.AddedOrderIsKeyOrder | QuickTodo/Controllers/TasksViewModel.swift:59 | "newest `added` first" on the task fields is the same order as a descending sort by the key path `added` |
| Sectioning.CheckedOrderIsKeyOrder | QuickTodo/Controllers/TasksViewModel.swift:62 | on checked tasks, "most recently checked first" is the same order as a descending sort by the key path `checked` |
| Sectioning.SelectionsPartition | QuickTodo/Controllers/TasksViewModel.swift:57-61 | the tasks kept by `checked == nil` and by `checked != nil` together are the whole collection, with no task lost or duplicated |
| Sectioning.Sectioned | QuickTodo/Controllers/TasksViewModel.swift:53-68 | the view has exactly two sections, "Due Tasks" then "Done Tasks". A task is in "Due Tasks" iff it is in the input and unchecked. A task is in "Done Tasks" iff it is in the input and checked. The two sections together are a permutation of the input. Items are input items, unchanged. "Due Tasks" is newest `added` first and "Done Tasks" is newest `checked` first |
| Sectioning.SectionCounts | QuickTodo/Controllers/TasksViewModel.swift:57-65 | in any admissible view, an unchecked task occurs in "Due Tasks" exactly as often as in the collection and never in "Done Tasks"; a checked task the other way round |
| Sectioning.SectionedIsSectioning | QuickTodo/Controllers/TasksViewModel.swift:53-68 | the computed view satisfies the reference definition of the rule |
| Sectioning.SectioningsAgree | QuickTodo/Controllers/TasksViewModel.swift:57-66 | two admissible views of one collection hold the same tasks in each section, and show the same `added` (due) and `checked` (done) timestamps at every position |
| Sectioning.NoTiesMeansDistinctKeys | QuickTodo/Controllers/TasksViewModel.swift:57-62 | without timestamp ties in the collection, each section of an admissible view has pairwise distinct sort keys |
| Sectioning.SectioningUnique | QuickTodo/Controllers/TasksViewModel.swift:57-66 | without timestamp ties, every admissible view equals the computed one |
| Scenarios.DueTasksNewestFirst | QuickTodo/Controllers/TasksViewModel.swift:57-59 | unchecked tasks added at 1, 3, 2 are listed 3, 2, 1 under "Due Tasks", and "Done Tasks" is present and empty |
| Scenarios.DoneTasksMostRecentFirst | QuickTodo/Controllers/TasksViewModel.swift:60-62 | tasks checked at 5 and at 10 are listed 10, 5 under "Done Tasks", after an empty "Due Tasks" |
| Scenarios.EmptyCollection | QuickTodo/Controllers/TasksViewModel.swift:63-66 | an empty collection still gives both sections, "Due Tasks" first |

## Left out

- `editAction`, `deleteAction`, `onCreateTask`, `onToggle`, `onDelete` and `onUpdateTitle` (TasksViewModel.swift:35-51, 76-111) are not modelled. They only forward to `TaskServiceType` and `SceneCoordinatorType`. Those types are not part of this model, so the effects of create, toggle, delete and rename are not visible.
- The `Observable` plumbing is not modelled: `taskService.tasks()`, `.map`, and re-emission on every change. It is reactive-runtime behaviour. The model is the function applied to each snapshot.
- The store's query strings are modelled only by the behaviour they request: typed field access, a filter condition and a key-path order. How the store parses them is not modelled.
- Which of the tied orders the store picks is not modelled. The store does not specify it. `Query.Sort` is one admissible choice, and `Sectioning.IsSectioning` admits all of them.
- `Date` is modelled as an integer, not as a floating-point time interval. Only the order of timestamps matters to the rule.
- Where `nil` sorts among `checked` keys is a modelling choice (`Tasks.KeyLeq`: first in ascending order). The view sorts by `checked` only after removing the `nil` ones, so this choice never shows in the result.
- `TaskItem`'s declaration is not part of this model. The model gives it the fields `added` and `checked` that the view reads, plus `title` and a store-assigned `uid`. Neither `title` nor `uid` plays a part in the rule.
- Modal navigation and the construction of `EditTaskViewModel` are UI concerns and are not modelled.
