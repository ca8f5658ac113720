/**
  The task list component: it filters the tasks it is given by status, sorts a copy
  newest first, and shows either the cards or a message chosen by the filter. The
  same status filter is what the dashboard applies before handing the list over.
 */
module TaskList {
  import opened Common
  import opened Tasks

  /** The three status filters of the dashboard. */
  datatype Filter = All | Active | Completed

  /** The filter's predicate on one task. */
  predicate Shows(f: Filter, t: Task) {
    match f
    case Active => !t.isComplete
    case Completed => t.isComplete
    case All => true
  }

  // ---------------------------------------------------------------- filtering

  /** `tasks.filter(...)`: the tasks the filter shows, in their order (membership: `FilterMembers`). */
  function FilterTasks(tasks: seq<Task>, f: Filter): (r: seq<Task>)
    ensures |r| <= |tasks|
    ensures forall i :: 0 <= i < |r| ==> Shows(f, r[i])
  {
    if tasks == [] then []
    else
      assert tasks == [tasks[0]] + tasks[1..];
      (if Shows(f, tasks[0]) then [tasks[0]] else []) + FilterTasks(tasks[1..], f)
  }

  /** One step of the filter: the head is kept or dropped, then the tail is filtered. */
  lemma FilterCons(x: Task, s: seq<Task>, f: Filter)
    ensures FilterTasks([x] + s, f) == (if Shows(f, x) then [x] else []) + FilterTasks(s, f)
  {
    assert ([x] + s)[0] == x && ([x] + s)[1..] == s;
  }

  /** The filter keeps exactly the tasks it shows, each no more often than the input holds it. */
  lemma {:induction false} FilterMembers(tasks: seq<Task>, f: Filter)
    ensures multiset(FilterTasks(tasks, f)) <= multiset(tasks)
    ensures forall t :: t in FilterTasks(tasks, f) <==> t in tasks && Shows(f, t)
  {
    if tasks != [] {
      var x, rest := tasks[0], tasks[1..];
      assert tasks == [x] + rest;
      FilterCons(x, rest, f);
      FilterMembers(rest, f);
    }
  }

  /** Filtering a concatenation filters each part: the relative order of kept tasks is the input order. */
  lemma {:induction false} FilterConcat(a: seq<Task>, b: seq<Task>, f: Filter)
    ensures FilterTasks(a + b, f) == FilterTasks(a, f) + FilterTasks(b, f)
  {
    if a == [] {
      assert a + b == b;
    } else {
      var x, rest := a[0], a[1..];
      var head := if Shows(f, x) then [x] else [];
      calc {
        FilterTasks(a + b, f);
      == { assert a + b == [x] + (rest + b); FilterCons(x, rest + b, f); }
        head + FilterTasks(rest + b, f);
      == { FilterConcat(rest, b, f); }
        head + (FilterTasks(rest, f) + FilterTasks(b, f));
      ==
        (head + FilterTasks(rest, f)) + FilterTasks(b, f);
      == { assert a == [x] + rest; FilterCons(x, rest, f); }
        FilterTasks(a, f) + FilterTasks(b, f);
      }
    }
  }

  /** The `all` filter keeps the list as it is. */
  lemma {:induction false} FilterAllIsIdentity(tasks: seq<Task>)
    ensures FilterTasks(tasks, All) == tasks
  {
    if tasks != [] {
      FilterAllIsIdentity(tasks[1..]);
      assert [tasks[0]] + tasks[1..] == tasks;
    }
  }

  /** `active` and `completed` split the list: together they hold every task exactly once. */
  lemma {:induction false} ActiveCompletedPartition(tasks: seq<Task>)
    ensures multiset(FilterTasks(tasks, Active)) + multiset(FilterTasks(tasks, Completed)) == multiset(tasks)
    ensures |FilterTasks(tasks, Active)| + |FilterTasks(tasks, Completed)| == |tasks|
  {
    if tasks != [] {
      ActiveCompletedPartition(tasks[1..]);
      assert tasks == [tasks[0]] + tasks[1..];
    }
  }

  /** Filtering an already filtered list changes nothing (the page filters, then the list filters again). */
  lemma {:induction false} FilterIdempotent(tasks: seq<Task>, f: Filter)
    ensures FilterTasks(FilterTasks(tasks, f), f) == FilterTasks(tasks, f)
  {
    if tasks != [] {
      FilterIdempotent(tasks[1..], f);
      var rest := FilterTasks(tasks[1..], f);
      if Shows(f, tasks[0]) {
        assert ([tasks[0]] + rest)[1..] == rest;
      } else {
        assert [] + rest == rest;
      }
    }
  }

  // ---------------------------------------------------------------- sorting

  /** `t.updated_at || t.created_at`: `updated_at` unless it is missing or empty. */
  function SortKey(t: Task): (k: Option<Stamp>)
    ensures t.updatedAt.Some? && t.updatedAt.value.text != "" ==> k == t.updatedAt
    ensures (t.updatedAt.None? || t.updatedAt.value.text == "") ==> k == t.createdAt
  {
    if t.updatedAt.Some? && t.updatedAt.value.text != "" then t.updatedAt else t.createdAt
  }

  /** The instant the comparator works with: absent when the key is falsy or does not parse. */
  function KeyTime(t: Task): (r: Option<int>)
    ensures r.Some? <==> SortKey(t).Some? && SortKey(t).value.text != "" && SortKey(t).value.millis.Some?
    ensures r.Some? ==> r == SortKey(t).value.millis
  {
    match SortKey(t)
    case None => None
    case Some(s) => if s.text == "" then None else s.millis
  }

  /** The comparator: `bTime - aTime`, or 0 when either side has no usable key. */
  function Compare(a: Task, b: Task): (c: int)
    ensures KeyTime(a).None? || KeyTime(b).None? ==> c == 0
    ensures KeyTime(a).Some? && KeyTime(b).Some? ==>
      (c < 0 <==> KeyTime(a).value > KeyTime(b).value) && (c == 0 <==> KeyTime(a) == KeyTime(b))
  {
    if KeyTime(a).None? || KeyTime(b).None? then 0 else KeyTime(b).value - KeyTime(a).value
  }

  /** Places `x` in front of the first element that need not precede it (keeps equal keys in input order). */
  function InsertByKey(x: Task, sorted: seq<Task>): (r: seq<Task>)
    ensures multiset(r) == multiset(sorted) + multiset{x}
  {
    if sorted == [] then [x]
    else if Compare(sorted[0], x) < 0 then
      assert sorted == [sorted[0]] + sorted[1..];
      [sorted[0]] + InsertByKey(x, sorted[1..])
    else [x] + sorted
  }

  /**
    `[...filtered].sort(compare)`: a stable sort of a copy. Sorting a copy leaves the
    input list untouched, which the value semantics of sequences give for free.
   */
  function SortByKey(s: seq<Task>): (r: seq<Task>)
    ensures multiset(r) == multiset(s)
  {
    if s == [] then []
    else
      assert s == [s[0]] + s[1..];
      InsertByKey(s[0], SortByKey(s[1..]))
  }

  ghost predicate AllKeyed(s: seq<Task>) {
    forall t :: t in s ==> KeyTime(t).Some?
  }

  /** Every task has a usable key, and keys do not increase along the list. */
  ghost predicate NewestFirst(s: seq<Task>) {
    && AllKeyed(s)
    && forall i, j :: 0 <= i < j < |s| ==> KeyTime(s[i]).value >= KeyTime(s[j]).value
  }

  /** `y` has a usable key no earlier than that of every task of `s`. */
  ghost predicate Dominates(y: Task, s: seq<Task>) {
    && KeyTime(y).Some?
    && forall t :: t in s ==> KeyTime(t).Some? && KeyTime(y).value >= KeyTime(t).value
  }

  lemma NewestFirstCons(y: Task, s: seq<Task>)
    requires NewestFirst(s) && Dominates(y, s)
    ensures NewestFirst([y] + s)
  {
    var r := [y] + s;
    forall i, j | 0 <= i < j < |r| ensures KeyTime(r[i]).value >= KeyTime(r[j]).value {
      assert r[j] == s[j - 1];
      if i > 0 { assert r[i] == s[i - 1]; }
    }
  }

  lemma NewestFirstHead(s: seq<Task>)
    requires NewestFirst(s) && s != []
    ensures NewestFirst(s[1..]) && Dominates(s[0], s[1..])
  {
    var rest := s[1..];
    forall t | t in rest ensures KeyTime(s[0]).value >= KeyTime(t).value {
      var k :| 0 <= k < |rest| && rest[k] == t;
      assert rest[k] == s[k + 1];
    }
    forall i, j | 0 <= i < j < |rest| ensures KeyTime(rest[i]).value >= KeyTime(rest[j]).value {
      assert rest[i] == s[i + 1] && rest[j] == s[j + 1];
    }
  }

  lemma InsertMembers(x: Task, sorted: seq<Task>, t: Task)
    requires t in InsertByKey(x, sorted)
    ensures t == x || t in sorted
  {
    assert t in multiset(InsertByKey(x, sorted));
  }

  lemma {:induction false} InsertKeepsNewestFirst(x: Task, sorted: seq<Task>)
    requires KeyTime(x).Some? && NewestFirst(sorted)
    ensures NewestFirst(InsertByKey(x, sorted))
  {
    if sorted == [] {
      assert InsertByKey(x, sorted) == [x];
    } else {
      var s0, rest := sorted[0], sorted[1..];
      NewestFirstHead(sorted);
      if Compare(s0, x) < 0 {
        InsertKeepsNewestFirst(x, rest);
        var tail := InsertByKey(x, rest);
        forall t | t in tail ensures KeyTime(t).Some? && KeyTime(s0).value >= KeyTime(t).value {
          InsertMembers(x, rest, t);
        }
        NewestFirstCons(s0, tail);
      } else {
        NewestFirstCons(x, sorted);
      }
    }
  }

  /** When every task has a usable key, the display order is newest first. */
  lemma {:induction false} SortIsNewestFirst(s: seq<Task>)
    requires AllKeyed(s)
    ensures NewestFirst(SortByKey(s))
  {
    if s != [] {
      assert AllKeyed(s[1..]) by {
        forall t | t in s[1..] ensures KeyTime(t).Some? { assert t in s; }
      }
      SortIsNewestFirst(s[1..]);
      InsertKeepsNewestFirst(s[0], SortByKey(s[1..]));
    }
  }

  /** Of two keyed tasks, the one with the later instant is shown first, whatever their `created_at`. */
  lemma LaterKeyShownFirst(s: seq<Task>, a: Task, b: Task)
    requires AllKeyed(s) && a in s && b in s
    requires KeyTime(a).value > KeyTime(b).value
    ensures forall i, j ::
      (0 <= i < |SortByKey(s)| && 0 <= j < |SortByKey(s)| && SortByKey(s)[i] == a && SortByKey(s)[j] == b) ==> i < j
  {
    SortIsNewestFirst(s);
  }

  // ---------------------------------------------------------------- rendering

  /** What the list renders: the message for an empty result, or the cards in display order. */
  datatype ListView = EmptyState(message: string) | Cards(tasks: seq<Task>)

  /** The empty-state text, chosen by the filter. */
  function EmptyMessage(f: Filter): (m: string)
    ensures f.Completed? ==> m == "No completed tasks. Keep up the great work!"
    ensures f.Active? ==> m == "All caught up! Create a new task to get started."
    ensures f.All? ==> m == "No tasks yet. Create your first task!"
  {
    match f
    case Completed => "No completed tasks. Keep up the great work!"
    case Active => "All caught up! Create a new task to get started."
    case All => "No tasks yet. Create your first task!"
  }

  /** The component: filter, sort a copy, then the empty message or the cards. */
  function Render(tasks: seq<Task>, f: Filter): (v: ListView)
    ensures v.EmptyState? <==> FilterTasks(tasks, f) == []
    ensures v.EmptyState? ==> v.message == EmptyMessage(f)
    ensures v.Cards? ==> multiset(v.tasks) == multiset(FilterTasks(tasks, f))
    ensures v.Cards? && AllKeyed(FilterTasks(tasks, f)) ==> NewestFirst(v.tasks)
  {
    var shown := FilterTasks(tasks, f);
    var sorted := SortByKey(shown);
    if |sorted| == 0 then
      EmptyState(EmptyMessage(f))
    else
      assert AllKeyed(shown) ==> NewestFirst(sorted) by {
        if AllKeyed(shown) { SortIsNewestFirst(shown); }
      }
      Cards(sorted)
  }
}
