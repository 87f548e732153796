/** The task document of Backend/models/task.model.js: its fields, the
    schema's casting (trim), validators (required, length bounds, enums) and
    defaults, and the pure parts of the task controller's updates. */
module TaskModel {
  import opened Common

  predicate IsHexDigit(c: char) {
    '0' <= c <= '9' || 'a' <= c <= 'f' || 'A' <= c <= 'F'
  }

  /** `mongoose.Types.ObjectId.isValid` on a request parameter. */
  predicate IsValidObjectId(s: string) {
    |s| == 24 && forall i :: 0 <= i < |s| ==> IsHexDigit(s[i])
  }

  /** The ObjectId a valid request id casts to, written out in the
      lower-case hexadecimal form in which the database prints its ids: the
      cast does not depend on the case of the hex digits. */
  function CastObjectId(s: string): (id: ObjectId)
    requires IsValidObjectId(s)
    ensures IsValidObjectId(id) && IsLower(id)
    ensures forall i :: 0 <= i < |s| ==> id[i] == LowerChar(s[i])
    ensures IsLower(s) ==> id == s
  {
    if IsLower(s) then LowerOfLower(s); ToLower(s) else ToLower(s)
  }

  /** Two request ids reach the same document exactly when they spell the
      same hex digits, whatever the letter case. */
  lemma CastObjectIdIgnoresCase(a: string, b: string)
    requires IsValidObjectId(a) && IsValidObjectId(b)
    ensures CastObjectId(a) == CastObjectId(b) <==> forall i :: 0 <= i < 24 ==> LowerChar(a[i]) == LowerChar(b[i])
  {
    if forall i :: 0 <= i < 24 ==> LowerChar(a[i]) == LowerChar(b[i]) {
      assert forall i :: 0 <= i < 24 ==> CastObjectId(a)[i] == CastObjectId(b)[i];
    }
  }

  datatype Status = Pending | InProgress | Completed | Archived
  datatype Priority = Low | Medium | High | Urgent

  function StatusName(s: Status): string {
    match s
    case Pending => "pending"
    case InProgress => "in-progress"
    case Completed => "completed"
    case Archived => "archived"
  }

  function PriorityName(p: Priority): string {
    match p
    case Low => "low"
    case Medium => "medium"
    case High => "high"
    case Urgent => "urgent"
  }

  /** The `enum` validator of `status`: only the four names are accepted. */
  function ParseStatus(s: string): (r: Option<Status>)
    ensures r.Some? ==> StatusName(r.value) == s
  {
    if s == "pending" then Some(Pending)
    else if s == "in-progress" then Some(InProgress)
    else if s == "completed" then Some(Completed)
    else if s == "archived" then Some(Archived)
    else None
  }

  /** The `enum` validator of `priority`. */
  function ParsePriority(s: string): (r: Option<Priority>)
    ensures r.Some? ==> PriorityName(r.value) == s
  {
    if s == "low" then Some(Low)
    else if s == "medium" then Some(Medium)
    else if s == "high" then Some(High)
    else if s == "urgent" then Some(Urgent)
    else None
  }

  /** Every enum member's name is accepted back as that member, so the enum
      validator accepts exactly the four names. */
  lemma ParseNamesRoundTrip(s: Status, p: Priority)
    ensures ParseStatus(StatusName(s)) == Some(s)
    ensures ParsePriority(PriorityName(p)) == Some(p)
  {
    match s
    case Pending =>
    case InProgress =>
    case Completed =>
    case Archived =>
  }

  const TitleMinLength: nat := 3
  const TitleMaxLength: nat := 100
  const DescriptionMaxLength: nat := 500
  const DefaultStatus: Status := Pending
  const DefaultPriority: Priority := Medium

  /** A stored task. Dates (due date and timestamps) are integers; absent
      optional fields and `null` are both `None`. */
  datatype Task = Task(
    id: ObjectId,
    title: string,
    description: Option<string>,
    status: Status,
    priority: Priority,
    dueDate: Option<int>,
    owner: ObjectId,
    createdAt: int,
    updatedAt: int,
    completedAt: Option<int>,
    isDeleted: bool,
    deletedAt: Option<int>)

  /** A stored title: trimmed, required, 3 to 100 characters. */
  predicate ValidTitle(t: string) {
    IsTrimmed(t) && TitleMinLength <= |t| <= TitleMaxLength
  }

  /** A stored description: optional, trimmed, at most 500 characters. */
  predicate ValidDescription(d: Option<string>) {
    d.Some? ==> IsTrimmed(d.value) && |d.value| <= DescriptionMaxLength
  }

  /** What the schema's validators guarantee of every stored document. */
  predicate SchemaValid(t: Task) {
    ValidTitle(t.title) && ValidDescription(t.description)
  }

  /** What the controller's updates keep true: `completedAt` is only ever
      set while the task is completed, and a task carries a deletion time
      exactly when it is soft-deleted. */
  predicate Consistent(t: Task) {
    && (t.completedAt.Some? ==> t.status == Completed)
    && (t.isDeleted <==> t.deletedAt.Some?)
  }

  predicate ValidTask(t: Task) {
    SchemaValid(t) && Consistent(t)
  }

  /** The fields of a create or update request body; `None` is an absent
      field. A due date is `None` when the body's value is falsy. */
  datatype TaskFields = TaskFields(
    title: Option<string>,
    description: Option<string>,
    status: Option<string>,
    priority: Option<string>,
    dueDate: Option<int>)

  /** The title a body field would store, if it passes the validators. */
  predicate TitleAccepted(title: string) {
    TitleMinLength <= |Trim(title)| <= TitleMaxLength
  }

  predicate DescriptionAccepted(d: string) {
    |Trim(d)| <= DescriptionMaxLength
  }

  /** Whether `Task.create` accepts the body: absent status and priority
      take their defaults, present ones must be enum names. */
  predicate CreateAccepted(f: TaskFields) {
    && f.title.Some? && TitleAccepted(f.title.value)
    && (f.description.Some? ==> DescriptionAccepted(f.description.value))
    && (f.status.Some? ==> ParseStatus(f.status.value).Some?)
    && (f.priority.Some? ==> ParsePriority(f.priority.value).Some?)
  }

  /** `Task.create` with the schema's setters, validators and defaults.
      A created task belongs to the given owner, satisfies the schema, has
      no completion or deletion time, and takes the default status and
      priority when the body has none; creation fails exactly when one of
      the validators rejects the body. */
  function NewTask(id: ObjectId, owner: ObjectId, f: TaskFields, now: int): (r: Result<Task>)
    ensures r.Err? <==>
      || f.title.None?
      || |Trim(f.title.value)| < TitleMinLength
      || |Trim(f.title.value)| > TitleMaxLength
      || (f.description.Some? && |Trim(f.description.value)| > DescriptionMaxLength)
      || (f.status.Some? && f.status.value !in {"pending", "in-progress", "completed", "archived"})
      || (f.priority.Some? && f.priority.value !in {"low", "medium", "high", "urgent"})
    ensures r.Err? ==> r.error == SchemaViolation
    ensures r.Ok? ==>
      && r.value.id == id && r.value.owner == owner
      && ValidTask(r.value)
      && r.value.title == Trim(f.title.value)
      && r.value.completedAt.None? && !r.value.isDeleted && r.value.deletedAt.None?
      && r.value.status == (if f.status.None? then Pending else ParseStatus(f.status.value).value)
      && r.value.priority == (if f.priority.None? then Medium else ParsePriority(f.priority.value).value)
      && r.value.createdAt == now && r.value.updatedAt == now && r.value.dueDate == f.dueDate
      && r.value.description == (if f.description.Some? then Some(Trim(f.description.value)) else None)
  {
    if !CreateAccepted(f) then Err(SchemaViolation)
    else Ok(Task(
      id := id,
      title := Trim(f.title.value),
      description := if f.description.Some? then Some(Trim(f.description.value)) else None,
      status := if f.status.Some? then ParseStatus(f.status.value).value else DefaultStatus,
      priority := if f.priority.Some? then ParsePriority(f.priority.value).value else DefaultPriority,
      dueDate := f.dueDate,
      owner := owner,
      createdAt := now,
      updatedAt := now,
      completedAt := None,
      isDeleted := false,
      deletedAt := None))
  }

  /** The update's "every field falsy" test. */
  predicate NoFieldGiven(f: TaskFields) {
    !Truthy(f.title) && !Truthy(f.description) && !Truthy(f.status)
    && !Truthy(f.priority) && f.dueDate.None?
  }

  /** The update validators (`runValidators: true`) on the fields set: an
      absent field is not set and not validated. */
  predicate UpdateAccepted(f: TaskFields) {
    && (f.title.Some? ==> TitleAccepted(f.title.value))
    && (f.description.Some? ==> DescriptionAccepted(f.description.value))
    && (f.status.Some? ==> ParseStatus(f.status.value).Some?)
    && (f.priority.Some? ==> ParsePriority(f.priority.value).Some?)
  }

  /** The `completedAt` an update leaves on an existing task, given the
      body's status: moving into "completed" stamps the time, moving out of
      "completed" clears it, and every other update (no status, an empty
      one, or the same side of "completed") leaves it as it was. */
  function NextCompletedAt(existing: Task, status: Option<string>, now: int): (c: Option<int>)
    ensures existing.status != Completed && status == Some("completed") ==> c == Some(now)
    ensures existing.status == Completed && Truthy(status) && status != Some("completed") ==> c.None?
    ensures !Truthy(status) ==> c == existing.completedAt
    ensures existing.status == Completed && status == Some("completed") ==> c == existing.completedAt
    ensures existing.status != Completed && status != Some("completed") ==> c == existing.completedAt
  {
    if status == Some("completed") then
      if existing.status != Completed then Some(now) else existing.completedAt
    else if Truthy(status) then
      if existing.status == Completed then None else existing.completedAt
    else existing.completedAt
  }

  /** The document `findOneAndUpdate` returns with `new: true`: each present
      field set (through the trim setter), `completedAt` recomputed, and
      `updatedAt` stamped by the schema's timestamps. An accepted update
      keeps a valid task valid (in particular the coupling of `completedAt`
      to the completed status) and never changes its identity, owner,
      creation time or deletion state. */
  function ApplyUpdate(existing: Task, f: TaskFields, now: int): (t: Task)
    requires UpdateAccepted(f)
    ensures ValidTask(existing) ==> ValidTask(t)
    ensures t.id == existing.id && t.owner == existing.owner && t.createdAt == existing.createdAt
    ensures t.isDeleted == existing.isDeleted && t.deletedAt == existing.deletedAt
    ensures t.completedAt == NextCompletedAt(existing, f.status, now)
    ensures f.title.Some? ==> t.title == Trim(f.title.value)
    ensures f.title.None? ==> t.title == existing.title
    ensures f.status.None? ==> t.status == existing.status && t.completedAt == existing.completedAt
    ensures f.status.Some? ==> StatusName(t.status) == f.status.value
    ensures f.priority.None? ==> t.priority == existing.priority
    ensures f.priority.Some? ==> PriorityName(t.priority) == f.priority.value
    ensures f.description.Some? ==> t.description == Some(Trim(f.description.value))
    ensures f.description.None? ==> t.description == existing.description
    ensures f.dueDate.Some? ==> t.dueDate == f.dueDate
    ensures f.dueDate.None? ==> t.dueDate == existing.dueDate
    ensures t.updatedAt == now
  {
    CompletedOnlyWhileCompleted(existing, f, now);
    SetFields(existing, f, NextCompletedAt(existing, f.status, now), now)
  }

  /** `$set: updateFields` on a stored task, with the `completedAt` the
      pre-read decided: the present fields through the trim setter, the
      absent ones kept, and `updatedAt` stamped. */
  function SetFields(existing: Task, f: TaskFields, completedAt: Option<int>, now: int): (t: Task)
    requires UpdateAccepted(f)
    ensures t.id == existing.id && t.owner == existing.owner && t.createdAt == existing.createdAt
    ensures t.isDeleted == existing.isDeleted && t.deletedAt == existing.deletedAt
    ensures t.status == UpdatedStatus(existing, f) && t.completedAt == completedAt && t.updatedAt == now
    ensures SchemaValid(existing) ==> SchemaValid(t)
  {
    existing.(
      title := if f.title.Some? then Trim(f.title.value) else existing.title,
      description := if f.description.Some? then Some(Trim(f.description.value)) else existing.description,
      status := UpdatedStatus(existing, f),
      priority := if f.priority.Some? then ParsePriority(f.priority.value).value else existing.priority,
      dueDate := if f.dueDate.Some? then f.dueDate else existing.dueDate,
      completedAt := completedAt,
      updatedAt := now)
  }

  /** The status an accepted update leaves: the body's, or the old one. */
  function UpdatedStatus(existing: Task, f: TaskFields): (s: Status)
    requires UpdateAccepted(f)
    ensures f.status.None? ==> s == existing.status
    ensures f.status.Some? ==> StatusName(s) == f.status.value
  {
    if f.status.Some? then ParseStatus(f.status.value).value else existing.status
  }

  /** An accepted update sets a completion time only on a task it leaves
      completed. */
  lemma CompletedOnlyWhileCompleted(existing: Task, f: TaskFields, now: int)
    requires UpdateAccepted(f)
    ensures Consistent(existing) && NextCompletedAt(existing, f.status, now).Some? ==>
      UpdatedStatus(existing, f) == Completed
  {
    if f.status.Some? && f.status.value != "completed" {
      assert UpdatedStatus(existing, f) != Completed;
    }
  }

  /** The soft delete's `$set: {isDeleted: true, deletedAt: now}` (plus the
      `updatedAt` timestamp). The task keeps its content and owner, is
      marked deleted at `now`, and a valid task stays valid. */
  function SoftDeleted(t: Task, now: int): (d: Task)
    ensures ValidTask(t) ==> ValidTask(d)
    ensures d.isDeleted && d.deletedAt == Some(now)
    ensures d.id == t.id && d.owner == t.owner && d.title == t.title && d.description == t.description
    ensures d.status == t.status && d.priority == t.priority && d.completedAt == t.completedAt
    ensures d.dueDate == t.dueDate && d.createdAt == t.createdAt && d.updatedAt == now
  {
    t.(isDeleted := true, deletedAt := Some(now), updatedAt := now)
  }
}
