/**
 * The domain rules of the task service: validation of a creation input, the
 * task a creation input builds, the overlay an update applies, and the status
 * change. None of these touch the store.
 */
module TaskDomain {
  import opened Wrappers
  import opened TaskTypes

  /** The due date is given but the parser rejects it. */
  predicate BadDueDate(dto: CreateInput, parse: DateParser) {
    Present(dto.dueDate) && parse(dto.dueDate.value).None?
  }

  /** The priority is given but is not a value of the priority enumeration. */
  predicate BadPriority(dto: CreateInput) {
    Present(dto.priority) && !IsPriorityValue(dto.priority.value)
  }

  /** The status is given but is not a value of the status enumeration. */
  predicate BadStatus(dto: CreateInput) {
    Present(dto.status) && !IsStatusValue(dto.status.value)
  }

  /**
   * The checks of a creation input, in order; the first failing check decides
   * the error, `None` means the input is accepted.
   */
  function ValidateTaskCreation(dto: CreateInput, parse: DateParser): (r: Option<Failure>)
    ensures r.None? <==>
      Present(dto.title) && !BadDueDate(dto, parse) && !BadPriority(dto) && !BadStatus(dto) && Present(dto.userId)
    ensures r == Some(TitleRequired) <==> !Present(dto.title)
    ensures r == Some(InvalidDueDate) <==> Present(dto.title) && BadDueDate(dto, parse)
    ensures (r.Some? && r.value.InvalidPriority?) <==>
      Present(dto.title) && !BadDueDate(dto, parse) && BadPriority(dto)
    ensures (r.Some? && r.value.InvalidStatus?) <==>
      Present(dto.title) && !BadDueDate(dto, parse) && !BadPriority(dto) && BadStatus(dto)
    ensures r == Some(UserIdRequired) <==>
      Present(dto.title) && !BadDueDate(dto, parse) && !BadPriority(dto) && !BadStatus(dto) && !Present(dto.userId)
    ensures r.Some? && r.value.InvalidPriority? ==> r.value.priority == dto.priority.value
    ensures r.Some? && r.value.InvalidStatus? ==> r.value.status == dto.status.value
    ensures r.Some? ==> r.value.IsBadRequest()
  {
    if !Present(dto.title) then Some(TitleRequired)
    else if BadDueDate(dto, parse) then Some(InvalidDueDate)
    else if BadPriority(dto) then Some(InvalidPriority(dto.priority.value))
    else if BadStatus(dto) then Some(InvalidStatus(dto.status.value))
    else if !Present(dto.userId) then Some(UserIdRequired)
    else None
  }

  /**
   * The task an accepted creation input builds. The status is always PENDING;
   * a missing description becomes empty and a missing priority MEDIUM (an empty
   * priority string passes validation and is kept, since `??` only replaces a
   * missing value).
   */
  function CreateFromDto(dto: CreateInput, parse: DateParser): (r: Draft)
    requires ValidateTaskCreation(dto, parse).None?
    ensures r.status == StatusValue(Pending)
    ensures r.title == dto.title.value && r.userId == dto.userId.value
    ensures dto.description.None? ==> r.description == ""
    ensures dto.description.Some? ==> r.description == dto.description.value
    ensures dto.priority.None? ==> r.priority == PriorityValue(Medium)
    ensures dto.priority.Some? ==> r.priority == dto.priority.value
    ensures Present(dto.dueDate) <==> r.dueDate.Some?
    ensures Present(dto.dueDate) ==> r.dueDate == parse(dto.dueDate.value)
    ensures r.priority == "" || IsPriorityValue(r.priority)
    ensures IsStatusValue(r.status)
  {
    Draft(
      dto.title.value,
      dto.description.GetOr(""),
      StatusValue(Pending),
      dto.priority.GetOr(PriorityValue(Medium)),
      if Present(dto.dueDate) then parse(dto.dueDate.value) else None,
      dto.userId.value)
  }

  /** Whatever status a creation input carries, the built task is the same. */
  lemma CreateIgnoresInputStatus(dto: CreateInput, other: Option<string>, parse: DateParser)
    requires ValidateTaskCreation(dto, parse).None?
    requires ValidateTaskCreation(dto.(status := other), parse).None?
    ensures CreateFromDto(dto, parse) == CreateFromDto(dto.(status := other), parse)
  {
  }

  /**
   * The permissive overlay of `Object.assign`: every field present in the
   * patch takes the patch value, every other field keeps its value; nothing is
   * checked against the enumerations.
   */
  function ApplyUpdate(t: Task, p: Patch): (r: Task)
    ensures r.id == t.id && r.createdAt == t.createdAt
    ensures r.title == (if p.title.Some? then p.title.value else t.title)
    ensures r.description == (if p.description.Some? then p.description.value else t.description)
    ensures r.status == (if p.status.Some? then p.status.value else t.status)
    ensures r.priority == (if p.priority.Some? then p.priority.value else t.priority)
    ensures r.dueDate == (if p.dueDate.Some? then p.dueDate.value else t.dueDate)
    ensures r.userId == (if p.userId.Some? then p.userId.value else t.userId)
  {
    t.(title := p.title.GetOr(t.title),
       description := p.description.GetOr(t.description),
       status := p.status.GetOr(t.status),
       priority := p.priority.GetOr(t.priority),
       dueDate := p.dueDate.GetOr(t.dueDate),
       userId := p.userId.GetOr(t.userId))
  }

  /** The empty patch changes nothing. */
  lemma ApplyEmptyPatch(t: Task)
    ensures ApplyUpdate(t, Patch(None, None, None, None, None, None)) == t
  {
  }

  /** Applying the same patch twice is applying it once. */
  lemma ApplyUpdateIdempotent(t: Task, p: Patch)
    ensures ApplyUpdate(ApplyUpdate(t, p), p) == ApplyUpdate(t, p)
  {
  }

  /** A due date sent as null clears the task's due date; one left out keeps it. */
  lemma ApplyNullDueDate(t: Task, p: Patch)
    ensures p.dueDate == Some(None) ==> ApplyUpdate(t, p).dueDate.None?
    ensures p.dueDate.None? ==> ApplyUpdate(t, p).dueDate == t.dueDate
  {
  }

  /** A patch whose status is outside the enumeration is stored as given. */
  lemma ApplyUpdateIsPermissive(t: Task, raw: string)
    ensures ApplyUpdate(t, Patch(None, None, Some(raw), None, None, None)).status == raw
  {
  }

  /**
   * The status change: a value outside the enumeration is rejected and leaves
   * the task as it was; a valid value replaces the status and nothing else.
   */
  function UpdateStatus(t: Task, newStatus: string): (r: Result<Task, Failure>)
    ensures r.Err? <==> !IsStatusValue(newStatus)
    ensures r.Err? ==> r.error == InvalidStatus(newStatus) && r.error.IsBadRequest()
    ensures r.Ok? ==> r.value.status == newStatus && r.value.(status := t.status) == t
  {
    if !IsStatusValue(newStatus) then Err(InvalidStatus(newStatus))
    else Ok(t.(status := newStatus))
  }
}
