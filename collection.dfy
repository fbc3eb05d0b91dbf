/** The persisted collection: what a well-formed collection is, how the next
    identifier is chosen, and the two positional primitives the handlers use
    (the first index holding an id, and removal of one index). */
module Collection {
  import opened Types

  /** A task as the data model describes it. */
  predicate WellFormed(t: Task) {
    t.id > 0 && t.title != "" && t.description != "" && IsPriorityLevel(t.priority)
  }

  predicate UniqueIds(ts: seq<Task>) {
    forall i, j :: 0 <= i < j < |ts| ==> ts[i].id != ts[j].id
  }

  /** The collection invariant: unique positive ids and well-formed tasks. */
  predicate ValidCollection(ts: seq<Task>) {
    UniqueIds(ts) && forall k :: 0 <= k < |ts| ==> WellFormed(ts[k])
  }

  /** `Math.max(...tasks.map(t => t.id))` on a non-empty collection. */
  function MaxId(ts: seq<Task>): (m: int)
    requires |ts| > 0
    ensures forall k :: 0 <= k < |ts| ==> ts[k].id <= m
    ensures exists k :: 0 <= k < |ts| && ts[k].id == m
  {
    if |ts| == 1 then ts[0].id
    else
      var rest := MaxId(ts[1..]);
      if ts[0].id >= rest then ts[0].id else rest
  }

  /** The id a new task receives: 1 for an empty collection, one more than
      the largest id otherwise. */
  function NextId(ts: seq<Task>): (r: int)
    ensures |ts| == 0 ==> r == 1
    ensures forall k :: 0 <= k < |ts| ==> ts[k].id < r
    ensures |ts| > 0 ==> exists k :: 0 <= k < |ts| && ts[k].id == r - 1
  {
    if |ts| > 0 then MaxId(ts) + 1 else 1
  }

  /** `findIndex(t => t.id === id)`: the first index holding `id`, or -1. */
  function IndexOf(ts: seq<Task>, id: int): (i: int)
    ensures -1 <= i < |ts|
    ensures i == -1 <==> forall k :: 0 <= k < |ts| ==> ts[k].id != id
    ensures 0 <= i ==> ts[i].id == id && forall k :: 0 <= k < i ==> ts[k].id != id
  {
    if |ts| == 0 then -1
    else if ts[0].id == id then 0
    else
      var j := IndexOf(ts[1..], id);
      if j == -1 then -1 else j + 1
  }

  /** `splice(i, 1)`: the collection without index `i`, the rest in order. */
  function RemoveAt(ts: seq<Task>, i: int): (r: seq<Task>)
    requires 0 <= i < |ts|
    ensures |r| == |ts| - 1
    ensures forall k :: 0 <= k < i ==> r[k] == ts[k]
    ensures forall k :: i <= k < |r| ==> r[k] == ts[k + 1]
    ensures multiset(r) + multiset{ts[i]} == multiset(ts)
  {
    assert ts == ts[..i] + [ts[i]] + ts[i + 1..];
    ts[..i] + ts[i + 1..]
  }

  /** Appending a task carrying `NextId` keeps the ids unique. */
  lemma NextIdKeepsIdsUnique(ts: seq<Task>, t: Task)
    requires UniqueIds(ts) && t.id == NextId(ts)
    ensures UniqueIds(ts + [t])
  {
  }

  /** Removing one task keeps the collection invariant. */
  lemma RemoveKeepsValid(ts: seq<Task>, i: int)
    requires 0 <= i < |ts| && ValidCollection(ts)
    ensures ValidCollection(RemoveAt(ts, i))
  {
  }

  /** Deleting the task with the largest id lets the next creation reuse an
      id no larger than the deleted one: ids are not a monotonic counter. */
  lemma DeletingMaxAllowsReuse(ts: seq<Task>, i: int)
    requires 0 <= i < |ts| && ValidCollection(ts) && ts[i].id == MaxId(ts)
    ensures NextId(RemoveAt(ts, i)) <= ts[i].id
  {
  }

  /** Deleting any task other than one holding the largest id leaves the next
      id unchanged. */
  lemma {:induction false} DeletingOtherKeepsNextId(ts: seq<Task>, i: int)
    requires 0 <= i < |ts| && ts[i].id < MaxId(ts)
    ensures NextId(RemoveAt(ts, i)) == NextId(ts)
  {
    var r := RemoveAt(ts, i);
    var k :| 0 <= k < |ts| && ts[k].id == MaxId(ts);
    var k' := if k < i then k else k - 1;
    assert r[k'] == ts[k];
    var j :| 0 <= j < |r| && r[j].id == NextId(r) - 1;
    var j' := if j < i then j else j + 1;
    assert r[j] == ts[j'];
  }

  /** With ids 1, 2, 3, deleting 3 makes the next creation receive 3 again. */
  lemma ReuseAfterDeletingMax(a: Task, b: Task, c: Task)
    requires a.id == 1 && b.id == 2 && c.id == 3
    ensures NextId([a, b, c]) == 4
    ensures NextId(RemoveAt([a, b, c], 2)) == 3
  {
  }
}
