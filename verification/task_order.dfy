/** `ORDER BY due_date ASC, created_at DESC`: earlier due dates first (the
    dates are compared as text), and among equal due dates the newer row
    first. Rows equal on both keys may come in either order, so the lists are
    specified as sorted permutations and not as one particular sequence. */
module TaskOrder {
  import opened JsText
  import opened Model

  /** `a` may be listed before `b`. */
  predicate InOrder(a: Task, b: Task) {
    LexLess(a.dueDate, b.dueDate) || (a.dueDate == b.dueDate && a.createdAt >= b.createdAt)
  }

  lemma InOrderTotal(a: Task, b: Task)
    ensures InOrder(a, b) || InOrder(b, a)
  {
    LexLessTotal(a.dueDate, b.dueDate);
  }

  lemma InOrderTransitive(a: Task, b: Task, c: Task)
    requires InOrder(a, b) && InOrder(b, c)
    ensures InOrder(a, c)
  {
    if LexLess(a.dueDate, b.dueDate) && LexLess(b.dueDate, c.dueDate) {
      LexLessTransitive(a.dueDate, b.dueDate, c.dueDate);
    }
  }

  predicate Sorted(s: seq<Task>) {
    forall i, j :: 0 <= i < j < |s| ==> InOrder(s[i], s[j])
  }

  /** `t` placed before the first row it may precede. */
  function InsertSorted(t: Task, s: seq<Task>): seq<Task> {
    if s == [] || InOrder(t, s[0]) then [t] + s else [s[0]] + InsertSorted(t, s[1..])
  }

  lemma {:induction false} InsertSortedMultiset(t: Task, s: seq<Task>)
    ensures multiset(InsertSorted(t, s)) == multiset(s) + multiset{t}
  {
    if s != [] && !InOrder(t, s[0]) {
      InsertSortedMultiset(t, s[1..]);
      assert s == [s[0]] + s[1..];
    }
  }

  /** Every row that `InsertSorted` places is `t` or a row of `s`. */
  lemma InsertSortedFrom(t: Task, s: seq<Task>, j: int)
    requires 0 <= j < |InsertSorted(t, s)|
    ensures InsertSorted(t, s)[j] == t || InsertSorted(t, s)[j] in s
  {
    var r := InsertSorted(t, s);
    InsertSortedMultiset(t, s);
    assert r[j] in multiset(r);
  }

  /** The first row of a sorted sequence may precede every later one. */
  lemma HeadFirst(s: seq<Task>, x: Task)
    requires Sorted(s) && s != [] && x in s
    ensures InOrder(s[0], x)
  {
    var k :| 0 <= k < |s| && s[k] == x;
    if k == 0 {
      InOrderTotal(x, x);
    }
  }

  lemma {:induction false} InsertSortedSorted(t: Task, s: seq<Task>)
    requires Sorted(s)
    ensures Sorted(InsertSorted(t, s))
  {
    var r := InsertSorted(t, s);
    if s == [] {
    } else if InOrder(t, s[0]) {
      assert r == [t] + s;
      forall i, j | 0 <= i < j < |r|
        ensures InOrder(r[i], r[j])
      {
        if i == 0 {
          HeadFirst(s, r[j]);
          InOrderTransitive(t, s[0], r[j]);
        } else {
          assert r[i] == s[i - 1] && r[j] == s[j - 1];
        }
      }
    } else {
      var rest := InsertSorted(t, s[1..]);
      assert r == [s[0]] + rest;
      assert Sorted(s[1..]) by {
        forall i, j | 0 <= i < j < |s[1..]|
          ensures InOrder(s[1..][i], s[1..][j])
        {
          assert s[1..][i] == s[i + 1] && s[1..][j] == s[j + 1];
        }
      }
      InsertSortedSorted(t, s[1..]);
      InOrderTotal(t, s[0]);
      forall i, j | 0 <= i < j < |r|
        ensures InOrder(r[i], r[j])
      {
        if i == 0 {
          InsertSortedFrom(t, s[1..], j - 1);
          if rest[j - 1] != t {
            HeadFirst(s, rest[j - 1]);
          }
        } else {
          assert r[i] == rest[i - 1] && r[j] == rest[j - 1];
        }
      }
    }
  }

  /** Insertion sort. */
  function SortTasks(s: seq<Task>): (r: seq<Task>)
    ensures Sorted(r)
    ensures multiset(r) == multiset(s)
  {
    if s == [] then []
    else
      var rest := SortTasks(s[1..]);
      InsertSortedSorted(s[0], rest);
      InsertSortedMultiset(s[0], rest);
      assert s == [s[0]] + s[1..];
      InsertSorted(s[0], rest)
  }
}
