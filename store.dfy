/** The mutating handlers (POST `/`, PUT `/:id`, DELETE `/:id`) over the
    persisted collection, and the task values they build. */
module Store {
  import opened Types
  import opened Validation
  import opened Collection
  import opened Queries

  /** The task POST `/` appends: a fresh id, title and description from the
      body, `completed || false`, `priority || 'medium'`, and the creation
      time supplied by the caller. */
  function NewTask(ts: seq<Task>, b: Body, createdAt: string): (t: Task)
    requires Validate(b).Pass?
    ensures |ts| == 0 ==> t.id == 1
    ensures forall k :: 0 <= k < |ts| ==> ts[k].id < t.id
    ensures t.title == b.title.value && t.description == b.description.value
    ensures t.completed <==> b.completed == Some(JBool(true))
    ensures b.priority.None? || b.priority == Some("") ==> t.priority == DefaultPriority
    ensures Truthy(b.priority) ==> t.priority == b.priority.value
    ensures t.createdAt == createdAt
    ensures ValidCollection(ts) ==> WellFormed(t)
  {
    var completed := match b.completed case Some(JBool(c)) => c case _ => false;
    var priority := if Truthy(b.priority) then b.priority.value else DefaultPriority;
    Task(NextId(ts), b.title.value, b.description.value, completed, priority, createdAt)
  }

  /** Creating keeps the collection invariant: the new id is positive and
      above every existing one, and the new task is well formed. */
  lemma CreateKeepsValid(ts: seq<Task>, b: Body, createdAt: string)
    requires ValidCollection(ts) && Validate(b).Pass?
    ensures ValidCollection(ts + [NewTask(ts, b, createdAt)])
  {
  }

  /** `{ ...tasks[taskIndex], ...req.body, id }` exactly as the source spreads
      it: every body key present overwrites, `createdAt` and an empty
      `priority` included; the path id wins over a body id. */
  function MergeAsWritten(current: Task, b: Body, id: int): (t: Task)
    requires Validate(b).Pass?
    ensures t.id == id
    ensures t.title == b.title.value && t.description == b.description.value
    ensures b.completed.None? ==> t.completed == current.completed
    ensures b.completed.Some? ==> t.completed == b.completed.value.b
    ensures t.priority == if b.priority.Some? then b.priority.value else current.priority
    ensures t.createdAt == if b.createdAt.Some? then b.createdAt.value else current.createdAt
  {
    Task(id, b.title.value, b.description.value,
         if b.completed.Some? then b.completed.value.b else current.completed,
         if b.priority.Some? then b.priority.value else current.priority,
         if b.createdAt.Some? then b.createdAt.value else current.createdAt)
  }

  /** Validation lets `priority: ""` through (it is falsy), and the spread
      then stores it: the replaced task leaves the three priority levels. */
  lemma AsWrittenStoresEmptyPriority(current: Task, b: Body, id: int)
    requires Validate(b).Pass? && b.priority == Some("")
    ensures !WellFormed(MergeAsWritten(current, b, id))
    ensures Filter([MergeAsWritten(current, b, id)], PriorityIs("low")) == []
    ensures Filter([MergeAsWritten(current, b, id)], PriorityIs("medium")) == []
    ensures Filter([MergeAsWritten(current, b, id)], PriorityIs("high")) == []
  {
  }

  /** A body carrying `createdAt` rewrites the creation time of the task. */
  lemma AsWrittenRewritesCreatedAt(current: Task, b: Body, id: int)
    requires Validate(b).Pass? && b.createdAt.Some? && b.createdAt.value != current.createdAt
    ensures MergeAsWritten(current, b, id).createdAt != current.createdAt
  {
  }

  /** Replacing as written keeps the collection invariant whenever the body
      does not carry an empty priority. */
  lemma ReplaceAsWrittenKeepsValid(ts: seq<Task>, i: int, b: Body)
    requires ValidCollection(ts) && 0 <= i < |ts| && Validate(b).Pass? && b.priority != Some("")
    ensures ValidCollection(ts[i := MergeAsWritten(ts[i], b, ts[i].id)])
  {
  }

  /** The replacement PUT `/:id` stores: the path id, the body's title and
      description, the body's `completed` and non-empty `priority` when
      supplied, and everything else, the creation time included, kept. */
  function Merge(current: Task, b: Body, id: int): (t: Task)
    requires Validate(b).Pass?
    ensures t.id == id
    ensures t.title == b.title.value && t.description == b.description.value
    ensures b.completed.None? ==> t.completed == current.completed
    ensures b.completed.Some? ==> t.completed == b.completed.value.b
    ensures t.priority == if Truthy(b.priority) then b.priority.value else current.priority
    ensures t.createdAt == current.createdAt
    ensures WellFormed(current) && id == current.id ==> WellFormed(t)
  {
    Task(id, b.title.value, b.description.value,
         if b.completed.Some? then b.completed.value.b else current.completed,
         if Truthy(b.priority) then b.priority.value else current.priority,
         current.createdAt)
  }

  /** Replacing the task found at `i` keeps the collection invariant. */
  lemma ReplaceKeepsValid(ts: seq<Task>, i: int, b: Body)
    requires ValidCollection(ts) && 0 <= i < |ts| && Validate(b).Pass?
    ensures ValidCollection(ts[i := Merge(ts[i], b, ts[i].id)])
  {
  }

  /** Once DELETE removed the task holding `id`, GET `/:id` answers 404. */
  lemma DeleteThenGetNotFound(ts: seq<Task>, id: int)
    requires UniqueIds(ts) && IndexOf(ts, id) >= 0
    ensures GetById(RemoveAt(ts, IndexOf(ts, id)), id) == Err(TaskNotFound)
  {
  }

  /** The persisted document `task.json`. Each handler loads the `tasks`
      array, changes the loaded array, and writes the whole array back. */
  class TaskStore {
    var tasks: seq<Task>

    constructor (initial: seq<Task>)
      ensures tasks == initial
    {
      tasks := initial;
    }

    /** POST `/`: validate, then append a new task and save. */
    method Create(b: Body, createdAt: string) returns (r: Result<Task>)
      modifies this
      ensures Validate(b).Fail? ==> r == Err(Validate(b).error) && tasks == old(tasks)
      ensures Validate(b).Pass? ==>
                r == Ok(NewTask(old(tasks), b, createdAt)) && tasks == old(tasks) + [r.value]
      ensures ValidCollection(old(tasks)) ==> ValidCollection(tasks)
    {
      var v := Validate(b);
      if v.Fail? {
        return Err(v.error);
      }
      var ts := tasks;
      var t := NewTask(ts, b, createdAt);
      ts := ts + [t];
      tasks := ts;
      if ValidCollection(old(tasks)) {
        CreateKeepsValid(old(tasks), b, createdAt);
      }
      r := Ok(t);
    }

    /** PUT `/:id`: validate, find the first index holding `id` (404 when
        there is none), store the task merged as the code spreads it at that
        index and save. */
    method Replace(id: int, b: Body) returns (r: Result<Task>)
      modifies this
      ensures Validate(b).Fail? ==> r == Err(Validate(b).error) && tasks == old(tasks)
      ensures Validate(b).Pass? && IndexOf(old(tasks), id) == -1 ==>
                r == Err(TaskNotFound) && tasks == old(tasks)
      ensures Validate(b).Pass? && IndexOf(old(tasks), id) >= 0 ==>
                var i := IndexOf(old(tasks), id);
                r == Ok(MergeAsWritten(old(tasks)[i], b, id)) && tasks == old(tasks)[i := r.value]
      ensures |tasks| == |old(tasks)|
      ensures forall k :: 0 <= k < |tasks| ==> tasks[k].id == old(tasks)[k].id
      ensures ValidCollection(old(tasks)) && b.priority != Some("") ==> ValidCollection(tasks)
    {
      var v := Validate(b);
      if v.Fail? {
        return Err(v.error);
      }
      var ts := tasks;
      var i := FindIndex(ts, id);
      if i == -1 {
        return Err(TaskNotFound);
      }
      var updated := MergeAsWritten(ts[i], b, id);
      ts := ts[i := updated];
      tasks := ts;
      if ValidCollection(old(tasks)) && b.priority != Some("") {
        ReplaceAsWrittenKeepsValid(old(tasks), i, b);
      }
      r := Ok(updated);
    }

    /** DELETE `/:id`: find the first index holding `id` (404 when there is
        none), splice it out, save, and report the removed task. */
    method Delete(id: int) returns (r: Result<Deletion>)
      modifies this
      ensures IndexOf(old(tasks), id) == -1 ==> r == Err(TaskNotFound) && tasks == old(tasks)
      ensures IndexOf(old(tasks), id) >= 0 ==>
                var i := IndexOf(old(tasks), id);
                r == Ok(Deletion(DeletedMessage, old(tasks)[i])) && tasks == RemoveAt(old(tasks), i)
      ensures ValidCollection(old(tasks)) ==> ValidCollection(tasks) && GetById(tasks, id).Err?
    {
      var ts := tasks;
      var i := FindIndex(ts, id);
      if i == -1 {
        return Err(TaskNotFound);
      }
      var deleted := ts[i];
      ts := RemoveAt(ts, i);
      tasks := ts;
      if ValidCollection(old(tasks)) {
        RemoveKeepsValid(old(tasks), i);
        DeleteThenGetNotFound(old(tasks), id);
      }
      r := Ok(Deletion(DeletedMessage, deleted));
    }
  }
}
