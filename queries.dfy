/** The read-only handlers: GET `/` (filter by completion, sort by date),
    GET `/priority/:level`, GET `/:id`, and the `findIndex` search that the
    PUT and DELETE handlers share. Each takes the collection as loaded. */
module Queries {
  import opened Types
  import opened Collection

  /** The two `filter` predicates the handlers use. */
  datatype TaskQuery = CompletedIs(want: bool) | PriorityIs(level: string)

  predicate Matches(t: Task, q: TaskQuery) {
    match q
    case CompletedIs(want) => t.completed == want
    case PriorityIs(level) => t.priority == level
  }

  /** `Array.prototype.filter`: the tasks that match, in collection order. */
  function Filter(ts: seq<Task>, q: TaskQuery): (r: seq<Task>)
    ensures |r| <= |ts|
    ensures forall t :: t in r <==> t in ts && Matches(t, q)
  {
    if |ts| == 0 then []
    else
      assert ts == [ts[0]] + ts[1..];
      (if Matches(ts[0], q) then [ts[0]] else []) + Filter(ts[1..], q)
  }

  /** Filtering keeps order: it distributes over concatenation. */
  lemma {:induction false} FilterAppend(a: seq<Task>, b: seq<Task>, q: TaskQuery)
    ensures Filter(a + b, q) == Filter(a, q) + Filter(b, q)
  {
    if |a| > 0 {
      assert (a + b)[1..] == a[1..] + b;
      FilterAppend(a[1..], b, q);
    } else {
      assert a + b == b;
    }
  }

  /** `completed=true` and `completed=false` split the collection: together
      they hold every task exactly as often as the collection does. */
  lemma {:induction false} CompletedPartition(ts: seq<Task>)
    ensures multiset(Filter(ts, CompletedIs(true))) + multiset(Filter(ts, CompletedIs(false)))
            == multiset(ts)
    ensures |Filter(ts, CompletedIs(true))| + |Filter(ts, CompletedIs(false))| == |ts|
  {
    if |ts| > 0 {
      CompletedPartition(ts[1..]);
      assert ts == [ts[0]] + ts[1..];
    }
  }

  /** In a collection whose priorities are all levels, the three priority
      listings split the collection. */
  lemma {:induction false} PriorityPartition(ts: seq<Task>)
    requires forall k :: 0 <= k < |ts| ==> IsPriorityLevel(ts[k].priority)
    ensures multiset(Filter(ts, PriorityIs("low"))) + multiset(Filter(ts, PriorityIs("medium")))
            + multiset(Filter(ts, PriorityIs("high"))) == multiset(ts)
  {
    if |ts| > 0 {
      PriorityPartition(ts[1..]);
      assert ts == [ts[0]] + ts[1..];
    }
  }

  /** The filter step of GET `/`: no `completed` query keeps everything;
      otherwise keep tasks whose flag equals `completed === 'true'`. */
  function Selected(ts: seq<Task>, completed: Option<string>): (r: seq<Task>)
    ensures completed.None? ==> r == ts
    ensures completed.Some? ==> r == Filter(ts, CompletedIs(completed.value == "true"))
  {
    match completed
    case None => ts
    case Some(q) => Filter(ts, CompletedIs(q == "true"))
  }

  predicate SortedById(s: seq<Task>) {
    forall i, j :: 0 <= i < j < |s| ==> s[i].id <= s[j].id
  }

  method Swap(a: array<Task>, i: int, j: int)
    requires 0 <= i < j < a.Length
    modifies a
    ensures a[..] == old(a[..])[i := old(a[j])][j := old(a[i])]
    ensures multiset(a[..]) == old(multiset(a[..]))
  {
    a[i], a[j] := a[j], a[i];
  }

  /** `tasks.sort((a, b) => a.id - b.id)`, an insertion sort in place. */
  method SortById(a: array<Task>)
    modifies a
    ensures SortedById(a[..])
    ensures multiset(a[..]) == old(multiset(a[..]))
  {
    var i := 0;
    while i < a.Length
      invariant 0 <= i <= a.Length
      invariant SortedById(a[..i])
      invariant multiset(a[..]) == old(multiset(a[..]))
    {
      var j := i;
      while j > 0 && a[j - 1].id > a[j].id
        invariant 0 <= j <= i
        invariant forall k, m :: 0 <= k < m <= i && k != j && m != j ==> a[k].id <= a[m].id
        invariant forall m :: j < m <= i ==> a[j].id < a[m].id
        invariant multiset(a[..]) == old(multiset(a[..]))
      {
        Swap(a, j - 1, j);
        j := j - 1;
      }
      i := i + 1;
    }
  }

  /** GET `/`: filter by `completed` when the query has it, then sort by id
      when `sort` is "date". */
  method ListTasks(ts: seq<Task>, completed: Option<string>, sort: Option<string>)
    returns (r: seq<Task>)
    ensures sort == Some("date") ==>
              SortedById(r) && multiset(r) == multiset(Selected(ts, completed))
    ensures sort != Some("date") ==> r == Selected(ts, completed)
  {
    r := Selected(ts, completed);
    if sort == Some("date") {
      var a := new Task[|r|](k requires 0 <= k < |r| => r[k]);
      assert a[..] == r;
      SortById(a);
      r := a[..];
    }
  }

  /** GET `/priority/:level`: the level is checked before the collection is
      consulted; otherwise the tasks with that priority, in order. */
  function ListByPriority(ts: seq<Task>, level: string): (r: Result<seq<Task>>)
    ensures r.Err? <==> !IsPriorityLevel(level)
    ensures r.Err? ==> r.error == InvalidLevel
    ensures r.Ok? ==> forall t :: t in r.value <==> t in ts && t.priority == level
    ensures r.Ok? ==> r.value == Filter(ts, PriorityIs(level))
  {
    if !IsPriorityLevel(level) then Err(InvalidLevel)
    else Ok(Filter(ts, PriorityIs(level)))
  }

  /** GET `/:id`: `find` gives the first task holding the id, else 404. */
  function GetById(ts: seq<Task>, id: int): (r: Result<Task>)
    ensures r.Err? <==> forall k :: 0 <= k < |ts| ==> ts[k].id != id
    ensures r.Err? ==> r.error == TaskNotFound
    ensures r.Ok? ==> exists k :: 0 <= k < |ts| && ts[k] == r.value && r.value.id == id
                                  && forall j :: 0 <= j < k ==> ts[j].id != id
  {
    var i := IndexOf(ts, id);
    if i == -1 then Err(TaskNotFound) else Ok(ts[i])
  }

  /** The `findIndex` search of PUT and DELETE, as a loop over the indices. */
  method FindIndex(ts: seq<Task>, id: int) returns (i: int)
    ensures i == IndexOf(ts, id)
  {
    i := 0;
    while i < |ts| && ts[i].id != id
      invariant 0 <= i <= |ts|
      invariant forall k :: 0 <= k < i ==> ts[k].id != id
    {
      i := i + 1;
    }
    if i == |ts| {
      i := -1;
    }
  }
}
