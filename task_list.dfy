/** The pure list transforms behind the board's handlers: the status
    update of a move (an element-wise map), the deletion filter and the
    per-column filter. */
module TaskList {

  import opened Tasks

  /** `r` is `s` with some elements left out, the rest kept in order
      (checked greedily, matching each element of `r` as early as possible). */
  predicate IsSubsequence<T(==)>(r: seq<T>, s: seq<T>)
    decreases |s|
  {
    if r == [] then true
    else if s == [] then false
    else if r[0] == s[0] then IsSubsequence(r[1..], s[1..])
    else IsSubsequence(r, s[1..])
  }

  /** The ids of the tasks, in list order. */
  function Ids(tasks: seq<Task>): (r: seq<string>)
    ensures |r| == |tasks|
    ensures forall i :: 0 <= i < |tasks| ==> r[i] == tasks[i].id
  {
    if tasks == [] then [] else [tasks[0].id] + Ids(tasks[1..])
  }

  /** No two tasks of the list share an id. The application does not
      guarantee this; it is only ever a hypothesis here. */
  ghost predicate UniqueIds(tasks: seq<Task>)
  {
    forall i, j :: 0 <= i < j < |tasks| ==> tasks[i].id != tasks[j].id
  }

  /** Every task has a non-empty title. The board's add handler ensures
      this of every task it creates; a saved list need not satisfy it. */
  ghost predicate AllTitled(tasks: seq<Task>)
  {
    forall i :: 0 <= i < |tasks| ==> tasks[i].title != ""
  }

  /** Move: every task whose id is `id` gets status `s`; all other fields
      and all other tasks stay as they were, in the same order. */
  function WithStatus(tasks: seq<Task>, id: string, s: Status): (r: seq<Task>)
    ensures |r| == |tasks|
    ensures forall i :: 0 <= i < |tasks| && tasks[i].id == id ==> r[i] == tasks[i].(status := s)
    ensures forall i :: 0 <= i < |tasks| && tasks[i].id != id ==> r[i] == tasks[i]
  {
    if tasks == [] then []
    else
      var head := if tasks[0].id == id then tasks[0].(status := s) else tasks[0];
      [head] + WithStatus(tasks[1..], id, s)
  }

  /** Delete: the tasks whose id is not `id`, in their original order. */
  function Without(tasks: seq<Task>, id: string): (r: seq<Task>)
    ensures forall t {:trigger t in r} :: t in r <==> t in tasks && t.id != id
    ensures IsSubsequence(r, tasks)
  {
    if tasks == [] then []
    else
      assert tasks == [tasks[0]] + tasks[1..];
      var rest := Without(tasks[1..], id);
      if tasks[0].id == id then
        assert rest != [] ==> rest[0] in rest;
        rest
      else [tasks[0]] + rest
  }

  /** Deletion drops every copy of every task carrying the id and keeps
      every copy of every other task. */
  lemma {:induction false} RemoveCounts(tasks: seq<Task>, id: string)
    ensures forall t :: multiset(Without(tasks, id))[t] == if t.id == id then 0 else multiset(tasks)[t]
  {
    if tasks != [] {
      RemoveCounts(tasks[1..], id);
      assert tasks == [tasks[0]] + tasks[1..];
    }
  }

  /** The column view: the tasks whose status is `s`, in list order. The
      count in the column header is the length of this sequence. */
  function Column(tasks: seq<Task>, s: Status): (r: seq<Task>)
    ensures forall t :: multiset(r)[t] == if t.status == s then multiset(tasks)[t] else 0
    ensures forall t {:trigger t in r} :: t in r <==> t in tasks && t.status == s
    ensures IsSubsequence(r, tasks)
  {
    if tasks == [] then []
    else
      assert tasks == [tasks[0]] + tasks[1..];
      if tasks[0].status == s then [tasks[0]] + Column(tasks[1..], s)
      else Column(tasks[1..], s)
  }

  /** A move leaves the list as it was exactly when every task carrying the
      id is already in the target column (in particular when no task carries
      it). */
  lemma MoveIsIdentityIff(tasks: seq<Task>, id: string, s: Status)
    ensures WithStatus(tasks, id, s) == tasks <==>
            forall i :: 0 <= i < |tasks| && tasks[i].id == id ==> tasks[i].status == s
  {
    var r := WithStatus(tasks, id, s);
    if forall i :: 0 <= i < |tasks| && tasks[i].id == id ==> tasks[i].status == s {
      forall i | 0 <= i < |tasks|
        ensures r[i] == tasks[i]
      {
        if tasks[i].id == id {
          assert r[i] == tasks[i].(status := s);
        }
      }
    }
    if r == tasks {
      forall i | 0 <= i < |tasks| && tasks[i].id == id
        ensures tasks[i].status == s
      {
        assert r[i].status == s;
      }
    }
  }

  /** Moving twice to the same column is the same as moving once. */
  lemma MoveIdempotent(tasks: seq<Task>, id: string, s: Status)
    ensures WithStatus(WithStatus(tasks, id, s), id, s) == WithStatus(tasks, id, s)
  {
    var once := WithStatus(tasks, id, s);
    assert forall i :: 0 <= i < |once| && once[i].id == id ==> once[i].status == s;
    MoveIsIdentityIff(once, id, s);
  }

  /** A move keeps every id in place, so it keeps ids unique. */
  lemma MoveKeepsIds(tasks: seq<Task>, id: string, s: Status)
    ensures Ids(WithStatus(tasks, id, s)) == Ids(tasks)
    ensures UniqueIds(tasks) ==> UniqueIds(WithStatus(tasks, id, s))
  {
    var r := WithStatus(tasks, id, s);
    assert forall i :: 0 <= i < |tasks| ==> r[i].id == tasks[i].id;
  }

  /** Neither a move nor a deletion touches a title, so both keep every
      title non-empty. */
  lemma TitlesKept(tasks: seq<Task>, id: string, s: Status)
    requires AllTitled(tasks)
    ensures AllTitled(WithStatus(tasks, id, s))
    ensures AllTitled(Without(tasks, id))
  {
    var r := Without(tasks, id);
    forall i | 0 <= i < |r| ensures r[i].title != "" {
      assert r[i] in r;
    }
  }

  /** Deletion leaves the list as it was exactly when no task carries the id. */
  lemma {:induction false} RemoveIsIdentityIff(tasks: seq<Task>, id: string)
    ensures Without(tasks, id) == tasks <==> forall i :: 0 <= i < |tasks| ==> tasks[i].id != id
  {
    if tasks != [] {
      RemoveIsIdentityIff(tasks[1..], id);
      assert tasks == [tasks[0]] + tasks[1..];
      if tasks[0].id == id {
        assert tasks[0] !in Without(tasks, id);
      }
    }
  }

  /** When exactly the task at index `k` carries the id, deletion removes
      that one task and keeps the others, in order. */
  lemma {:induction false} RemoveExactlyOne(tasks: seq<Task>, id: string, k: nat)
    requires k < |tasks| && tasks[k].id == id
    requires forall i :: 0 <= i < |tasks| && i != k ==> tasks[i].id != id
    ensures Without(tasks, id) == tasks[..k] + tasks[k + 1..]
  {
    var rest := tasks[1..];
    if k == 0 {
      forall i | 0 <= i < |rest| ensures rest[i].id != id {
        assert rest[i] == tasks[i + 1];
      }
      RemoveIsIdentityIff(rest, id);
      assert Without(tasks, id) == Without(rest, id);
      assert tasks[..k] + tasks[k + 1..] == rest;
    } else {
      forall i | 0 <= i < |rest| && i != k - 1 ensures rest[i].id != id {
        assert rest[i] == tasks[i + 1];
      }
      RemoveExactlyOne(rest, id, k - 1);
      calc {
        Without(tasks, id);
        [tasks[0]] + Without(rest, id);
        [tasks[0]] + (rest[..k - 1] + rest[k..]);
        { assert [tasks[0]] + rest[..k - 1] == tasks[..k]; assert rest[k..] == tasks[k + 1..]; }
        tasks[..k] + tasks[k + 1..];
      }
    }
  }

  /** Deleting keeps ids unique. */
  lemma {:induction false} RemoveKeepsUniqueIds(tasks: seq<Task>, id: string)
    requires UniqueIds(tasks)
    ensures UniqueIds(Without(tasks, id))
  {
    if tasks != [] {
      var rest := tasks[1..];
      assert UniqueIds(rest) by {
        forall i, j | 0 <= i < j < |rest| ensures rest[i].id != rest[j].id {
          assert rest[i] == tasks[i + 1] && rest[j] == tasks[j + 1];
        }
      }
      RemoveKeepsUniqueIds(rest, id);
      if tasks[0].id != id {
        var tail := Without(rest, id);
        assert Without(tasks, id) == [tasks[0]] + tail;
        forall j | 0 <= j < |tail| ensures tail[j].id != tasks[0].id {
          assert tail[j] in tail;
          var m :| 0 <= m < |rest| && rest[m] == tail[j];
          assert rest[m] == tasks[m + 1];
        }
      }
    }
  }

  /** Appending a task whose id no earlier task carries keeps ids unique. */
  lemma AddFreshKeepsUniqueIds(tasks: seq<Task>, t: Task)
    requires UniqueIds(tasks)
    requires t.id !in Ids(tasks)
    ensures UniqueIds(tasks + [t])
  {
    var r := tasks + [t];
    forall i, j | 0 <= i < j < |r| ensures r[i].id != r[j].id {
      if j == |tasks| {
        assert Ids(tasks)[i] == tasks[i].id;
      }
    }
  }

  /** The four columns together hold every task exactly once: each task
      shows in the column of its status and in no other, and the column
      counts add up to the length of the list. */
  lemma ColumnsPartition(tasks: seq<Task>)
    ensures forall t, c :: t in tasks && c in BoardColumns ==> (t in Column(tasks, c) <==> c == t.status)
    ensures multiset(Column(tasks, Backlog)) + multiset(Column(tasks, Todo))
          + multiset(Column(tasks, InProgress)) + multiset(Column(tasks, Done)) == multiset(tasks)
    ensures |Column(tasks, Backlog)| + |Column(tasks, Todo)|
          + |Column(tasks, InProgress)| + |Column(tasks, Done)| == |tasks|
  {
    var union := multiset(Column(tasks, Backlog)) + multiset(Column(tasks, Todo))
               + multiset(Column(tasks, InProgress)) + multiset(Column(tasks, Done));
    assert forall t :: union[t] == multiset(tasks)[t];
    assert union == multiset(tasks);
    assert |union| == |multiset(tasks)|;
  }
}
