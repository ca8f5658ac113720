/**
  The dashboard page: it paints the per-user cached list, fetches the user's tasks,
  merges the server snapshot with the cache, and keeps the list current as the
  form and the cards report changes. Every commit of a new list is also written to
  the cache under the user's key.
 */
module Dashboard {
  import opened Common
  import opened Tasks
  import opened TaskList

  // ---------------------------------------------------------------- local cache

  const KeyPrefix := "taskflow_tasks_"

  /** `localStorageKey`: the prefix followed by the user id, or by `anon` without one. */
  function StorageKey(userId: Option<string>): (k: string)
    ensures |k| >= |KeyPrefix| && k[..|KeyPrefix|] == KeyPrefix
    ensures userId.Some? ==> k[|KeyPrefix|..] == userId.value
    ensures userId.None? ==> k[|KeyPrefix|..] == "anon"
  {
    KeyPrefix + match userId { case Some(u) => u case None => "anon" }
  }

  /** Two signed-in users never share a cache entry. */
  lemma StorageKeyPerUser(u: string, v: string)
    requires u != v
    ensures StorageKey(Some(u)) != StorageKey(Some(v))
  {
    assert StorageKey(Some(u))[|KeyPrefix|..] == u;
    assert StorageKey(Some(v))[|KeyPrefix|..] == v;
  }

  /** What reading a key of local storage yields, after `JSON.parse`. */
  datatype Stored =
    | Missing              // no entry, or an empty string
    | Unreadable           // `getItem` or `JSON.parse` threw
    | NotAnArray           // valid JSON that is not an array
    | TaskArray(tasks: seq<Task>)

  function Lookup(storage: map<string, Stored>, key: string): Stored {
    if key in storage then storage[key] else Missing
  }

  /** `loadLocalTasks`: the parsed array, and the empty list on every other outcome. */
  function LoadLocalTasks(stored: Stored): (r: seq<Task>)
    ensures stored.TaskArray? ==> r == stored.tasks
    ensures !stored.TaskArray? ==> r == []
  {
    match stored
    case TaskArray(ts) => ts
    case _ => []
  }

  /** What `saveLocalTasks` writes under a user's key is what the next load of that user reads. */
  lemma SaveThenLoad(storage: map<string, Stored>, user: Option<string>, other: Option<string>, ts: seq<Task>)
    ensures LoadLocalTasks(Lookup(storage[StorageKey(user) := TaskArray(ts)], StorageKey(user))) == ts
    ensures StorageKey(other) != StorageKey(user) ==>
      Lookup(storage[StorageKey(user) := TaskArray(ts)], StorageKey(other)) == Lookup(storage, StorageKey(other))
  {
  }

  // ---------------------------------------------------------------- merge

  /**
    The cached tasks whose id is not in the server snapshot, in cache order (membership:
    `UnseenMembers`; order: `UnseenConcat`).
   */
  function Unseen(local: seq<Task>, serverIds: set<string>): (r: seq<Task>)
    ensures |r| <= |local|
    ensures forall i :: 0 <= i < |r| ==> r[i].id !in serverIds
  {
    if local == [] then []
    else
      var init, last := local[..|local| - 1], local[|local| - 1];
      assert local == init + [last];
      Unseen(init, serverIds) + (if last.id in serverIds then [] else [last])
  }

  /** `Unseen` keeps exactly the cached tasks whose id the server did not send. */
  lemma {:induction false} UnseenMembers(local: seq<Task>, serverIds: set<string>)
    ensures forall t :: t in Unseen(local, serverIds) <==> t in local && t.id !in serverIds
  {
    if local != [] {
      var init, last := local[..|local| - 1], local[|local| - 1];
      assert local == init + [last];
      UnseenMembers(init, serverIds);
    }
  }

  /** One step of `Unseen`: the last cached task is kept exactly when its id is new. */
  lemma UnseenSnoc(s: seq<Task>, x: Task, serverIds: set<string>)
    ensures Unseen(s + [x], serverIds) == Unseen(s, serverIds) + (if x.id in serverIds then [] else [x])
  {
    assert (s + [x])[..|s|] == s && (s + [x])[|s|] == x;
  }

  /** `Unseen` works element by element in cache order: it distributes over concatenation. */
  lemma {:induction false} UnseenConcat(a: seq<Task>, b: seq<Task>, serverIds: set<string>)
    ensures Unseen(a + b, serverIds) == Unseen(a, serverIds) + Unseen(b, serverIds)
  {
    if b == [] {
      assert a + b == a;
    } else {
      var init, last := b[..|b| - 1], b[|b| - 1];
      var tail := if last.id in serverIds then [] else [last];
      assert Unseen(a + b, serverIds) == Unseen(a + init, serverIds) + tail by {
        assert a + b == (a + init) + [last];
        UnseenSnoc(a + init, last, serverIds);
      }
      assert Unseen(b, serverIds) == Unseen(init, serverIds) + tail by {
        assert b == init + [last];
        UnseenSnoc(init, last, serverIds);
      }
      UnseenConcat(a, init, serverIds);
    }
  }

  /** The list `fetchTasks` commits: the server tasks, then the cached tasks the server does not know. */
  function Merge(server: seq<Task>, local: seq<Task>): (r: seq<Task>)
    ensures |server| <= |r| <= |server| + |local|
    ensures r[..|server|] == server
    ensures forall i :: |server| <= i < |r| ==> r[i] in local && r[i].id !in IdSet(server)
  {
    var u := Unseen(local, IdSet(server));
    UnseenMembers(local, IdSet(server));
    assert forall i :: |server| <= i < |server| + |u| ==> (server + u)[i] == u[i - |server|] && u[i - |server|] in u;
    server + u
  }

  /** The merge loop of `fetchTasks`: copy the snapshot, then push each cached task with an unseen id. */
  method MergeSnapshot(server: seq<Task>, local: seq<Task>) returns (merged: seq<Task>)
    ensures merged == Merge(server, local)
  {
    var idSet := IdSet(server);
    merged := server;
    var i := 0;
    while i < |local|
      invariant 0 <= i <= |local|
      invariant merged == server + Unseen(local[..i], idSet)
    {
      assert local[..i + 1][..i] == local[..i];
      if local[i].id !in idSet {
        merged := merged + [local[i]];
      }
      i := i + 1;
    }
    assert local[..|local|] == local;
  }

  /** The merge starts with the snapshot and adds nothing that was not cached. */
  lemma MergeSources(server: seq<Task>, local: seq<Task>)
    ensures Merge(server, local)[..|server|] == server
    ensures forall t :: t in Merge(server, local) ==> t in server || t in local
    ensures forall t :: t in local && t.id !in IdSet(server) ==> t in Merge(server, local)
  {
    var u := Unseen(local, IdSet(server));
    UnseenMembers(local, IdSet(server));
    assert (server + u)[..|server|] == server;
  }

  /** The merge knows exactly the ids of the snapshot and of the cache. */
  lemma MergeIds(server: seq<Task>, local: seq<Task>)
    ensures IdSet(Merge(server, local)) == IdSet(server) + IdSet(local)
  {
    var m := Merge(server, local);
    var u := Unseen(local, IdSet(server));
    UnseenMembers(local, IdSet(server));
    forall x | x in IdSet(local) && x !in IdSet(server) ensures x in IdSet(m) {
      var t :| t in local && t.id == x;
      assert t in u;
    }
  }

  lemma {:induction false} UnseenDistinct(local: seq<Task>, serverIds: set<string>)
    requires DistinctIds(local)
    ensures DistinctIds(Unseen(local, serverIds))
  {
    if local != [] {
      var init, last := local[..|local| - 1], local[|local| - 1];
      assert DistinctIds(init) by {
        forall i, j | 0 <= i < j < |init| ensures init[i].id != init[j].id {
          assert init[i] == local[i] && init[j] == local[j];
        }
      }
      UnseenDistinct(init, serverIds);
      UnseenMembers(init, serverIds);
      var u := Unseen(init, serverIds);
      if last.id !in serverIds {
        var r := u + [last];
        forall i, j | 0 <= i < j < |r| ensures r[i].id != r[j].id {
          assert r[i] == u[i] && r[i] in init;
          var k :| 0 <= k < |init| && init[k] == r[i];
          if j < |u| { assert r[j] == u[j]; }
          else { assert r[j] == local[|local| - 1] && init[k] == local[k]; }
        }
      }
    }
  }

  /** Distinct ids on both sides give distinct ids after the merge. */
  lemma MergeDistinct(server: seq<Task>, local: seq<Task>)
    requires DistinctIds(server) && DistinctIds(local)
    ensures DistinctIds(Merge(server, local))
  {
    var u := Unseen(local, IdSet(server));
    UnseenDistinct(local, IdSet(server));
    UnseenMembers(local, IdSet(server));
    var m := server + u;
    forall i, j | 0 <= i < j < |m| ensures m[i].id != m[j].id {
      if j >= |server| {
        assert m[j] == u[j - |server|] && m[j] in u;
        if i < |server| {
          assert m[i] in server;
        } else {
          assert m[i] == u[i - |server|];
        }
      }
    }
  }

  // ---------------------------------------------------------------- list updates

  /** `[task, ...prev]`, distinct ids survive exactly when the new id is not already listed. */
  lemma PrependDistinct(task: Task, prev: seq<Task>)
    ensures DistinctIds([task] + prev) <==> DistinctIds(prev) && task.id !in IdSet(prev)
  {
    var r := [task] + prev;
    if DistinctIds(r) {
      forall i, j | 0 <= i < j < |prev| ensures prev[i].id != prev[j].id {
        assert prev[i] == r[i + 1] && prev[j] == r[j + 1];
      }
      forall t | t in prev ensures t.id != task.id {
        var k :| 0 <= k < |prev| && prev[k] == t;
        assert r[0] == task && r[k + 1] == t;
      }
    }
    if DistinctIds(prev) && task.id !in IdSet(prev) {
      forall i, j | 0 <= i < j < |r| ensures r[i].id != r[j].id {
        assert r[j] == prev[j - 1] && r[j] in prev && r[j].id in IdSet(prev);
        if i > 0 { assert r[i] == prev[i - 1]; } else { assert r[i] == task; }
      }
    }
  }

  /** `prev.map(t => t.id === u.id ? u : t)`. */
  function ReplaceById(prev: seq<Task>, u: Task): (r: seq<Task>)
    ensures |r| == |prev|
    ensures forall i :: 0 <= i < |prev| && prev[i].id == u.id ==> r[i] == u
    ensures forall i :: 0 <= i < |prev| && prev[i].id != u.id ==> r[i] == prev[i]
  {
    seq(|prev|, i requires 0 <= i < |prev| => if prev[i].id == u.id then u else prev[i])
  }

  /** Replacing by id keeps every position's id, so distinct ids stay distinct. */
  lemma ReplaceKeepsIds(prev: seq<Task>, u: Task)
    ensures forall i :: 0 <= i < |prev| ==> ReplaceById(prev, u)[i].id == prev[i].id
    ensures IdSet(ReplaceById(prev, u)) == IdSet(prev)
    ensures DistinctIds(prev) ==> DistinctIds(ReplaceById(prev, u))
  {
    var r := ReplaceById(prev, u);
    forall x | x in IdSet(prev) ensures x in IdSet(r) {
      var t :| t in prev && t.id == x;
      var k :| 0 <= k < |prev| && prev[k] == t;
      assert r[k] in r;
    }
    forall x | x in IdSet(r) ensures x in IdSet(prev) {
      var t :| t in r && t.id == x;
      var k :| 0 <= k < |r| && r[k] == t;
      assert prev[k] in prev;
    }
  }

  /** An update whose id is not listed leaves the list unchanged. */
  lemma ReplaceMissingIsNoop(prev: seq<Task>, u: Task)
    requires u.id !in IdSet(prev)
    ensures ReplaceById(prev, u) == prev
  {
    var r := ReplaceById(prev, u);
    forall i | 0 <= i < |prev| ensures r[i] == prev[i] {
      assert prev[i] in prev;
    }
  }

  // ---------------------------------------------------------------- the page

  /** What the tasks query gives back: an error, or `data` (possibly null). */
  datatype FetchReply = FetchFailed | Fetched(data: Option<seq<Task>>)

  /** `data || []`. */
  function ServerTasks(data: Option<seq<Task>>): (r: seq<Task>)
    ensures data.Some? ==> r == data.value
    ensures data.None? ==> r == []
  {
    match data
    case Some(ts) => ts
    case None => []
  }

  /** What the page renders. */
  datatype Screen = SignInPrompt | LoadingTasks | ListScreen(view: ListView)

  class DashboardPage {
    var tasks: seq<Task>
    var loading: bool
    var refreshKey: int
    var filter: Filter
    /** The browser's local storage, by key. */
    var storage: map<string, Stored>

    constructor (storage: map<string, Stored>)
      ensures tasks == [] && loading && refreshKey == 0 && filter == All
      ensures this.storage == storage
    {
      tasks := [];
      loading := true;
      refreshKey := 0;
      filter := All;
      this.storage := storage;
    }

    /**
      `fetchTasks`: without a user nothing happens. Otherwise a failed query keeps the
      list; a successful one commits the merge of the snapshot with the cache and caches it.
     */
    method FetchTasks(user: Option<string>, reply: FetchReply)
      modifies this
      ensures refreshKey == old(refreshKey) && filter == old(filter)
      ensures user.None? ==> tasks == old(tasks) && loading == old(loading) && storage == old(storage)
      ensures user.Some? ==> !loading
      ensures user.Some? && reply.FetchFailed? ==> tasks == old(tasks) && storage == old(storage)
      ensures user.Some? && reply.Fetched? ==>
        && tasks == Merge(ServerTasks(reply.data), LoadLocalTasks(Lookup(old(storage), StorageKey(user))))
        && storage == old(storage)[StorageKey(user) := TaskArray(tasks)]
    {
      if user.None? {
        return;
      }
      loading := true;
      match reply {
        case FetchFailed =>
        case Fetched(data) =>
          var serverTasks := ServerTasks(data);
          var localTasks := LoadLocalTasks(Lookup(storage, StorageKey(user)));
          var merged := MergeSnapshot(serverTasks, localTasks);
          tasks := merged;
          storage := storage[StorageKey(user) := TaskArray(merged)];
      }
      loading := false;
    }

    /**
      The mount effect: paint a non-empty cache at once, then fetch. A change event of
      the subscription runs `FetchTasks` again.
     */
    method Mount(user: Option<string>, reply: FetchReply)
      modifies this
      ensures refreshKey == old(refreshKey) && filter == old(filter)
      ensures user.None? ==> tasks == old(tasks) && loading == old(loading) && storage == old(storage)
      ensures user.Some? ==> !loading
      ensures user.Some? && reply.FetchFailed? ==>
        var cached := LoadLocalTasks(Lookup(old(storage), StorageKey(user)));
        tasks == (if |cached| > 0 then cached else old(tasks)) && storage == old(storage)
      ensures user.Some? && reply.Fetched? ==>
        && tasks == Merge(ServerTasks(reply.data), LoadLocalTasks(Lookup(old(storage), StorageKey(user))))
        && storage == old(storage)[StorageKey(user) := TaskArray(tasks)]
    {
      if user.None? {
        return;
      }
      var cached := LoadLocalTasks(Lookup(storage, StorageKey(user)));
      if |cached| > 0 {
        tasks := cached;
      }
      FetchTasks(user, reply);
    }

    /** `handleTaskAdded`: the returned task goes in front, the list is cached, the list remounts. */
    method HandleTaskAdded(user: Option<string>, task: Task)
      modifies this
      ensures tasks == [task] + old(tasks)
      ensures storage == old(storage)[StorageKey(user) := TaskArray(tasks)]
      ensures refreshKey == old(refreshKey) + 1
      ensures loading == old(loading) && filter == old(filter)
    {
      tasks := [task] + tasks;
      storage := storage[StorageKey(user) := TaskArray(tasks)];
      refreshKey := refreshKey + 1;
    }

    /**
      `handleTaskUpdated`: with a task and a user the list entry with that id is replaced
      and cached; otherwise the page refetches.
     */
    method HandleTaskUpdated(user: Option<string>, updated: Option<Task>, reply: FetchReply)
      modifies this
      ensures refreshKey == old(refreshKey) && filter == old(filter)
      ensures updated.Some? && user.Some? ==>
        && tasks == ReplaceById(old(tasks), updated.value)
        && storage == old(storage)[StorageKey(user) := TaskArray(tasks)]
        && loading == old(loading)
      ensures (updated.None? || user.None?) && user.Some? && reply.FetchFailed? ==>
        tasks == old(tasks) && storage == old(storage) && !loading
      ensures (updated.None? || user.None?) && user.Some? && reply.Fetched? ==>
        && tasks == Merge(ServerTasks(reply.data), LoadLocalTasks(Lookup(old(storage), StorageKey(user))))
        && storage == old(storage)[StorageKey(user) := TaskArray(tasks)]
        && !loading
      ensures user.None? ==> tasks == old(tasks) && storage == old(storage) && loading == old(loading)
    {
      if updated.Some? && user.Some? {
        tasks := ReplaceById(tasks, updated.value);
        storage := storage[StorageKey(user) := TaskArray(tasks)];
        return;
      }
      FetchTasks(user, reply);
    }

    /** A filter button. */
    method SelectFilter(f: Filter)
      modifies this
      ensures filter == f
      ensures tasks == old(tasks) && loading == old(loading) && refreshKey == old(refreshKey)
      ensures storage == old(storage)
    {
      filter := f;
    }

    /** `filteredTasks`. */
    function FilteredTasks(): (r: seq<Task>)
      reads this
      ensures |r| <= |tasks|
      ensures forall t :: t in r <==> t in tasks && Shows(filter, t)
    {
      FilterMembers(tasks, filter);
      FilterTasks(tasks, filter)
    }

    /**
      The page body: a prompt without a user, a placeholder while loading, else the
      list component given the filtered tasks and the filter. The list shows exactly
      the tasks of the current list that the filter keeps.
     */
    function Render(user: Option<string>): (s: Screen)
      reads this
      ensures user.None? <==> s.SignInPrompt?
      ensures user.Some? && loading <==> s.LoadingTasks?
      ensures s.ListScreen? && s.view.Cards? ==> multiset(s.view.tasks) == multiset(FilterTasks(tasks, filter))
      ensures s.ListScreen? ==> (s.view.EmptyState? <==> FilterTasks(tasks, filter) == [])
    {
      if user.None? then SignInPrompt
      else if loading then LoadingTasks
      else
        FilterIdempotent(tasks, filter);
        ListScreen(TaskList.Render(FilteredTasks(), filter))
    }
  }
}
