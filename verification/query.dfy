/**
 The behaviour the task list requests from the store's query layer:
 `filter(condition)` keeps the items the condition holds for, and
 `sorted(byKeyPath:ascending: false)` orders them by a key, largest first.
 The store leaves the order of items with equal keys unspecified, so the
 sort below is one admissible choice; `SortedPermutationsShareKeys` shows
 that every admissible choice lists the same keys in the same places.
 */
module Query {
  import opened Options
  import opened Tasks

  /** The items of `s` for which `c` holds, each as often as it occurs in `s`. */
  function Filter(c: Condition, s: seq<TaskItem>): (r: seq<TaskItem>)
    ensures forall i :: 0 <= i < |r| ==> Holds(c, r[i])
    ensures forall t :: multiset(r)[t] == if Holds(c, t) then multiset(s)[t] else 0
    ensures |r| <= |s|
  {
    if s == [] then []
    else
      assert s == [s[0]] + s[1..];
      var rest := Filter(c, s[1..]);
      if Holds(c, s[0]) then [s[0]] + rest else rest
  }

  /** Putting `x` in front of a descending sequence keeps it descending
      when no item of the sequence has a larger key than `x`. */
  lemma SortedCons(path: KeyPath, x: TaskItem, s: seq<TaskItem>)
    requires SortedDescending(path, s)
    requires forall y :: y in s ==> KeyLeq(KeyOf(path, y), KeyOf(path, x))
    ensures SortedDescending(path, [x] + s)
  {
  }

  /** Inserts `x` into the descending sequence `s`, in front of the first
      item whose key does not exceed the key of `x`. */
  function Insert(path: KeyPath, x: TaskItem, s: seq<TaskItem>): (r: seq<TaskItem>)
    requires SortedDescending(path, s)
    ensures SortedDescending(path, r)
    ensures multiset(r) == multiset(s) + multiset{x}
  {
    if s == [] then [x]
    else if KeyLeq(KeyOf(path, s[0]), KeyOf(path, x)) then
      assert forall y :: y in s ==> KeyLeq(KeyOf(path, y), KeyOf(path, x)) by {
        forall y | y in s ensures KeyLeq(KeyOf(path, y), KeyOf(path, x)) {
          KeyLeqTotalOrder(KeyOf(path, y), KeyOf(path, s[0]), KeyOf(path, x));
        }
      }
      SortedCons(path, x, s);
      [x] + s
    else
      assert s == [s[0]] + s[1..];
      var rest := Insert(path, x, s[1..]);
      assert forall y :: y in rest ==> KeyLeq(KeyOf(path, y), KeyOf(path, s[0])) by {
        forall y | y in rest ensures KeyLeq(KeyOf(path, y), KeyOf(path, s[0])) {
          assert y in multiset(rest);
          KeyLeqTotalOrder(KeyOf(path, x), KeyOf(path, s[0]), KeyOf(path, x));
        }
      }
      SortedCons(path, s[0], rest);
      [s[0]] + rest
  }

  /** An ordering of `s` by `path`, largest key first. */
  function Sort(path: KeyPath, s: seq<TaskItem>): (r: seq<TaskItem>)
    ensures SortedDescending(path, r)
    ensures multiset(r) == multiset(s)
  {
    if s == [] then []
    else
      assert s == [s[0]] + s[1..];
      Insert(path, s[0], Sort(path, s[1..]))
  }

  /** `filter(c).sorted(byKeyPath: path, ascending: false)`: the items of
      `tasks` that `c` holds for, each as often as in `tasks`, largest key
      first. */
  function Select(c: Condition, path: KeyPath, tasks: seq<TaskItem>): (r: seq<TaskItem>)
    ensures forall i :: 0 <= i < |r| ==> Holds(c, r[i])
    ensures forall t :: multiset(r)[t] == if Holds(c, t) then multiset(tasks)[t] else 0
    ensures forall t :: t in r <==> t in tasks && Holds(c, t)
    ensures SortedDescending(path, r)
  {
    var r := Sort(path, Filter(c, tasks));
    assert forall t :: t in r <==> t in tasks && Holds(c, t) by {
      forall t ensures t in r <==> t in tasks && Holds(c, t) {
        assert t in r <==> t in multiset(r);
        assert t in tasks <==> t in multiset(tasks);
      }
    }
    r
  }

  /** `s` without its item at position `k`. */
  function RemoveAt(s: seq<TaskItem>, k: int): (r: seq<TaskItem>)
    requires 0 <= k < |s|
    ensures |r| == |s| - 1
    ensures forall j :: 0 <= j < |r| ==> r[j] == if j < k then s[j] else s[j + 1]
    ensures multiset(r) == multiset(s) - multiset{s[k]}
  {
    assert s == s[..k] + [s[k]] + s[k + 1..];
    s[..k] + s[k + 1..]
  }

  /** Removing one item keeps a descending sequence descending. */
  lemma SortedRemove(path: KeyPath, s: seq<TaskItem>, k: int)
    requires SortedDescending(path, s)
    requires 0 <= k < |s|
    ensures SortedDescending(path, RemoveAt(s, k))
  {
  }

  /** Two descending orderings of the same non-empty items start with the
      same (largest) key. */
  lemma LeadingKeysAgree(path: KeyPath, a: seq<TaskItem>, b: seq<TaskItem>)
    requires SortedDescending(path, a)
    requires SortedDescending(path, b)
    requires multiset(a) == multiset(b)
    requires a != [] && b != []
    ensures KeyOf(path, a[0]) == KeyOf(path, b[0])
  {
    assert b[0] in multiset(a);
    var k :| 0 <= k < |a| && a[k] == b[0];
    assert a[0] in multiset(b);
    var m :| 0 <= m < |b| && b[m] == a[0];
    assert KeyLeq(KeyOf(path, a[k]), KeyOf(path, a[0])) by {
      if k > 0 {
      } else {
        KeyLeqTotalOrder(KeyOf(path, a[0]), KeyOf(path, a[0]), KeyOf(path, a[0]));
      }
    }
    assert KeyLeq(KeyOf(path, b[m]), KeyOf(path, b[0])) by {
      if m > 0 {
      } else {
        KeyLeqTotalOrder(KeyOf(path, b[0]), KeyOf(path, b[0]), KeyOf(path, b[0]));
      }
    }
    KeyLeqTotalOrder(KeyOf(path, a[0]), KeyOf(path, b[0]), KeyOf(path, b[0]));
  }

  /** In a descending sequence, every item up to one that repeats the first
      key carries that same key. */
  lemma LeadingRunHasOneKey(path: KeyPath, s: seq<TaskItem>, k: int, i: int)
    requires SortedDescending(path, s)
    requires 0 <= i <= k < |s|
    requires KeyOf(path, s[k]) == KeyOf(path, s[0])
    ensures KeyOf(path, s[i]) == KeyOf(path, s[0])
  {
  }

  /** The keys of `a` and `b` agree everywhere when `b` starts with the key
      that `a` repeats up to position `k`, and the rest of `b` has the keys
      of `a` without its item `k`. */
  lemma KeysAfterRemoval(path: KeyPath, a: seq<TaskItem>, b: seq<TaskItem>, k: int)
    requires SortedDescending(path, a)
    requires 0 <= k < |a| == |b|
    requires KeyOf(path, a[k]) == KeyOf(path, a[0]) == KeyOf(path, b[0])
    requires forall j :: 0 <= j < |a| - 1 ==> KeyOf(path, RemoveAt(a, k)[j]) == KeyOf(path, RemoveAt(b, 0)[j])
    ensures forall i :: 0 <= i < |a| ==> KeyOf(path, a[i]) == KeyOf(path, b[i])
  {
    var a', b' := RemoveAt(a, k), RemoveAt(b, 0);
    forall i | 0 <= i < |a|
      ensures KeyOf(path, a[i]) == KeyOf(path, b[i])
    {
      if 0 < i <= k {
        LeadingRunHasOneKey(path, a, k, i);
        LeadingRunHasOneKey(path, a, k, i - 1);
        assert a'[i - 1] == a[i - 1] && b'[i - 1] == b[i];
      } else if i > k {
        assert a'[i - 1] == a[i] && b'[i - 1] == b[i];
      }
    }
  }

  /** Any two descending orderings of the same items agree on the key in
      every position: the order the store leaves open is only the order
      among items with equal keys. */
  lemma {:induction false} SortedPermutationsShareKeys(path: KeyPath, a: seq<TaskItem>, b: seq<TaskItem>)
    requires SortedDescending(path, a)
    requires SortedDescending(path, b)
    requires multiset(a) == multiset(b)
    ensures |a| == |b|
    ensures forall i :: 0 <= i < |a| ==> KeyOf(path, a[i]) == KeyOf(path, b[i])
    decreases |a|
  {
    assert |a| == |multiset(a)| == |multiset(b)| == |b|;
    if a != [] {
      LeadingKeysAgree(path, a, b);
      assert b[0] in multiset(a);
      var k :| 0 <= k < |a| && a[k] == b[0];
      SortedRemove(path, a, k);
      SortedRemove(path, b, 0);
      SortedPermutationsShareKeys(path, RemoveAt(a, k), RemoveAt(b, 0));
      KeysAfterRemoval(path, a, b, k);
    }
  }

  /** No two different items of `s` share a key under `path`. */
  predicate KeysDistinct(path: KeyPath, s: seq<TaskItem>) {
    forall x, y :: x in s && y in s && KeyOf(path, x) == KeyOf(path, y) ==> x == y
  }

  /** When the keys are distinct there is only one descending ordering. */
  lemma SortedPermutationUnique(path: KeyPath, a: seq<TaskItem>, b: seq<TaskItem>)
    requires SortedDescending(path, a)
    requires SortedDescending(path, b)
    requires multiset(a) == multiset(b)
    requires KeysDistinct(path, a)
    ensures a == b
  {
    SortedPermutationsShareKeys(path, a, b);
    forall i | 0 <= i < |a|
      ensures a[i] == b[i]
    {
      assert b[i] in multiset(a);
    }
  }
}
