/** The `validateTask` middleware that runs before POST and PUT. */
module Validation {
  import opened Types

  /** The rules are checked in a fixed order and the first that fails decides
      the answer; every failure is a 400. */
  function Validate(b: Body): (r: Outcome)
    ensures r.Fail? ==> r.error.status == BadRequest
    ensures !Truthy(b.title) || !Truthy(b.description) ==> r == Fail(TitleRequired)
    ensures (Truthy(b.title) && Truthy(b.description) && b.completed.Some? && !b.completed.value.JBool?)
              ==> r == Fail(CompletedNotBoolean)
    ensures r == Fail(PriorityNotAllowed) <==>
              (Truthy(b.title) && Truthy(b.description) && (b.completed.None? || b.completed.value.JBool?)
               && Truthy(b.priority) && !IsPriorityLevel(b.priority.value))
    ensures r.Pass? <==> Accepted(b)
  {
    if !Truthy(b.title) || !Truthy(b.description) then Fail(TitleRequired)
    else if b.completed.Some? && !b.completed.value.JBool? then Fail(CompletedNotBoolean)
    else if Truthy(b.priority) && !IsPriorityLevel(b.priority.value) then Fail(PriorityNotAllowed)
    else Pass
  }

  /** The body a handler receives once validation let it through: title and
      description non-empty, `completed` boolean when present, `priority` one
      of the three levels when non-empty. */
  predicate Accepted(b: Body) {
    && b.title.Some? && b.title.value != ""
    && b.description.Some? && b.description.value != ""
    && (b.completed.Some? ==> b.completed.value.JBool?)
    && (b.priority.Some? && b.priority.value != "" ==> IsPriorityLevel(b.priority.value))
  }
}
