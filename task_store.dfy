/** The task controller of Backend/controllers/task.controller.js over a
    task collection held in memory: every read and write is scoped to the
    authenticated caller's tasks that are not soft-deleted. */
module TaskStore {
  import opened Common
  import opened TaskModel
  import Sequences

  /** The caller can see task `id`: it exists, the caller owns it, and it is
      not soft-deleted (the `{_id, owner, isDeleted: false}` filter). */
  predicate Visible(tasks: map<ObjectId, Task>, caller: ObjectId, id: ObjectId) {
    id in tasks && tasks[id].owner == caller && !tasks[id].isDeleted
  }

  /** Everything the caller can reach through the controller. */
  function View(tasks: map<ObjectId, Task>, caller: ObjectId): (v: map<ObjectId, Task>)
    ensures forall id :: id in v <==> Visible(tasks, caller, id)
    ensures forall id :: id in v ==> id in tasks && v[id] == tasks[id]
  {
    map id | id in tasks && tasks[id].owner == caller && !tasks[id].isDeleted :: tasks[id]
  }

  /** A task of another user, or a soft-deleted one, is indistinguishable
      to the caller from no task at all: the caller's view of the store is
      the same as if it were not there. */
  lemma ForeignTaskLooksMissing(tasks: map<ObjectId, Task>, caller: ObjectId, id: ObjectId, t: Task)
    requires t.owner != caller || t.isDeleted
    ensures id !in View(tasks[id := t], caller)
    ensures View(tasks[id := t], caller) == View(tasks - {id}, caller)
  {
    var a, b := View(tasks[id := t], caller), View(tasks - {id}, caller);
    assert a.Keys == b.Keys;
    forall k | k in a ensures a[k] == b[k] {
      assert k != id;
    }
  }

  // ---------------------------------------------------------------------
  // getAllTasks: match, then sort, then paginate

  /** The query string of `GET /tasks`, already parsed; `None` is absent. */
  datatype ListQuery = ListQuery(
    status: Option<string>,
    priority: Option<string>,
    search: Option<string>,
    sortBy: Option<string>,
    sortOrder: Option<string>,
    page: Option<int>,
    limit: Option<int>)

  /** The `$match` document: owner and `isDeleted: false` always, the other
      conditions only when present. */
  datatype Filter = Filter(
    owner: ObjectId,
    status: Option<string>,
    priority: Option<string>,
    search: Option<string>)

  /** The filter each query asks for: a falsy query value adds no condition. */
  function QueryFilter(caller: ObjectId, q: ListQuery): Filter {
    Filter(caller,
      if Truthy(q.status) then q.status else None,
      if Truthy(q.priority) then q.priority else None,
      if Truthy(q.search) then q.search else None)
  }

  /** The `$or` of two case-insensitive `$regex` conditions, with the
      search text read literally. */
  predicate SearchHit(t: Task, text: string) {
    ContainsIgnoreCase(t.title, text)
    || (t.description.Some? && ContainsIgnoreCase(t.description.value, text))
  }

  predicate Matches(f: Filter, t: Task) {
    && t.owner == f.owner && !t.isDeleted
    && (f.status.Some? ==> StatusName(t.status) == f.status.value)
    && (f.priority.Some? ==> PriorityName(t.priority) == f.priority.value)
    && (f.search.Some? ==> SearchHit(t, f.search.value))
  }

  /** The documents named by `ids`, in that order, that match `f`. */
  function Select(tasks: map<ObjectId, Task>, ids: seq<ObjectId>, f: Filter): (r: seq<Task>)
    ensures |r| <= |ids|
    decreases |ids|
  {
    if ids == [] then []
    else
      var rest := Select(tasks, ids[..|ids| - 1], f);
      var k := ids[|ids| - 1];
      if k in tasks && Matches(f, tasks[k]) then rest + [tasks[k]] else rest
  }

  /** `Select` keeps exactly the matching stored documents. */
  lemma {:induction false} SelectExactly(tasks: map<ObjectId, Task>, ids: seq<ObjectId>, f: Filter)
    ensures forall t :: t in Select(tasks, ids, f) ==> Matches(f, t) && t in tasks.Values
    ensures forall i :: 0 <= i < |ids| && ids[i] in tasks && Matches(f, tasks[ids[i]]) ==>
      tasks[ids[i]] in Select(tasks, ids, f)
  {
    if ids != [] {
      var init := ids[..|ids| - 1];
      SelectExactly(tasks, init, f);
      forall i | 0 <= i < |ids| - 1 ensures ids[i] == init[i] {
      }
    }
  }

  /** A sort key value, ordered as MongoDB orders BSON values of one field:
      missing (or null) first, then numbers (dates here), then strings. */
  datatype Key = Missing | Num(n: int) | Text(s: string)

  predicate KeyLe(a: Key, b: Key) {
    match (a, b)
    case (Missing, _) => true
    case (Num(x), Num(y)) => x <= y
    case (Num(_), Text(_)) => true
    case (Text(x), Text(y)) => Sequences.LexLe(x, y)
    case _ => false
  }

  lemma KeyLeTotal(a: Key, b: Key)
    ensures KeyLe(a, b) || KeyLe(b, a)
  {
    if a.Text? && b.Text? {
      Sequences.LexLeTotal(a.s, b.s);
    }
  }

  lemma KeyLeTransitive(a: Key, b: Key, c: Key)
    requires KeyLe(a, b) && KeyLe(b, c)
    ensures KeyLe(a, c)
  {
    if a.Text? && b.Text? && c.Text? {
      Sequences.LexLeTransitive(a.s, b.s, c.s);
    }
  }

  function OptionalNum(d: Option<int>): Key {
    if d.Some? then Num(d.value) else Missing
  }

  /** The value a task has under a `sortBy` field name; a name the document
      does not have sorts every task as missing. */
  function SortKey(t: Task, field: string): Key {
    if field == "createdAt" then Num(t.createdAt)
    else if field == "updatedAt" then Num(t.updatedAt)
    else if field == "dueDate" then OptionalNum(t.dueDate)
    else if field == "completedAt" then OptionalNum(t.completedAt)
    else if field == "title" then Text(t.title)
    else if field == "description" then (if t.description.Some? then Text(t.description.value) else Missing)
    else if field == "status" then Text(StatusName(t.status))
    else if field == "priority" then Text(PriorityName(t.priority))
    else if field == "_id" then Text(t.id)
    else Missing
  }

  datatype SortSpec = SortSpec(field: string, ascending: bool)

  /** `sortBy ? {[sortBy]: sortOrder === 'asc' ? 1 : -1} : {createdAt: -1}`. */
  function SortSpecOf(q: ListQuery): (s: SortSpec)
    ensures !Truthy(q.sortBy) ==> s == SortSpec("createdAt", false)
    ensures Truthy(q.sortBy) ==> s.field == q.sortBy.value
    ensures s.ascending <==> Truthy(q.sortBy) && q.sortOrder == Some("asc")
  {
    if Truthy(q.sortBy) then SortSpec(q.sortBy.value, q.sortOrder == Some("asc"))
    else SortSpec("createdAt", false)
  }

  function TaskOrder(spec: SortSpec): (Task, Task) -> bool {
    (a: Task, b: Task) =>
      if spec.ascending then KeyLe(SortKey(a, spec.field), SortKey(b, spec.field))
      else KeyLe(SortKey(b, spec.field), SortKey(a, spec.field))
  }

  /** Both directions of every sort field order all tasks, with ties. */
  lemma TaskOrderIsTotalPreorder(spec: SortSpec)
    ensures Sequences.TotalPreorder(TaskOrder(spec))
  {
    var le := TaskOrder(spec);
    forall a: Task, b: Task ensures le(a, b) || le(b, a) {
      KeyLeTotal(SortKey(a, spec.field), SortKey(b, spec.field));
    }
    forall a: Task, b: Task, c: Task | le(a, b) && le(b, c) ensures le(a, c) {
      var ka, kb, kc := SortKey(a, spec.field), SortKey(b, spec.field), SortKey(c, spec.field);
      if spec.ascending {
        KeyLeTransitive(ka, kb, kc);
      } else {
        KeyLeTransitive(kc, kb, ka);
      }
    }
  }

  const DefaultPage: nat := 1
  const DefaultLimit: nat := 10

  /** The page number used: 1 when absent or not positive. */
  function EffectivePage(q: ListQuery): (p: nat)
    ensures p >= 1
    ensures q.page.None? ==> p == DefaultPage
    ensures q.page.Some? && q.page.value >= 1 ==> p == q.page.value
    ensures q.page.Some? && q.page.value < 1 ==> p == DefaultPage
  {
    if q.page.Some? && q.page.value >= 1 then q.page.value else DefaultPage
  }

  /** The page size used: 10 when absent or not positive. */
  function EffectiveLimit(q: ListQuery): (l: nat)
    ensures l >= 1
    ensures q.limit.None? ==> l == DefaultLimit
    ensures q.limit.Some? && q.limit.value >= 1 ==> l == q.limit.value
    ensures q.limit.Some? && q.limit.value < 1 ==> l == DefaultLimit
  {
    if q.limit.Some? && q.limit.value >= 1 then q.limit.value else DefaultLimit
  }

  /** Page `page` (1-indexed) of `limit` elements of `s`. */
  function Window<T>(s: seq<T>, page: nat, limit: nat): (w: seq<T>)
    requires page >= 1 && limit >= 1
    ensures |w| <= limit
    ensures forall i :: 0 <= i < |w| ==> (page - 1) * limit + i < |s| && w[i] == s[(page - 1) * limit + i]
    ensures (page - 1) * limit >= |s| ==> w == []
    ensures (page - 1) * limit < |s| ==>
      |w| == if |s| - (page - 1) * limit < limit then |s| - (page - 1) * limit else limit
  {
    var start := (page - 1) * limit;
    if start >= |s| then []
    else if |s| - start < limit then s[start..]
    else s[start..start + limit]
  }

  /** A page holds only elements of the sequence it is cut from. */
  lemma WindowWithin<T>(s: seq<T>, page: nat, limit: nat)
    requires page >= 1 && limit >= 1
    ensures forall x :: x in Window(s, page, limit) ==> x in s
  {
    var w := Window(s, page, limit);
    forall x | x in w ensures x in s {
      var i :| 0 <= i < |w| && w[i] == x;
      assert s[(page - 1) * limit + i] == x;
    }
  }

  /** A page of a sorted sequence is sorted. */
  lemma WindowSorted<T>(s: seq<T>, page: nat, limit: nat, le: (T, T) -> bool)
    requires page >= 1 && limit >= 1
    requires Sequences.Sorted(s, le)
    ensures Sequences.Sorted(Window(s, page, limit), le)
  {
    var w := Window(s, page, limit);
    var start := (page - 1) * limit;
    forall i, j | 0 <= i < j < |w| ensures le(w[i], w[j]) {
      assert w[i] == s[start + i] && w[j] == s[start + j];
    }
  }

  /** The sorted selection holds exactly the matching stored tasks. */
  lemma SortedSelection(tasks: map<ObjectId, Task>, ids: seq<ObjectId>, f: Filter, le: (Task, Task) -> bool)
    ensures forall t :: t in Sequences.Sort(Select(tasks, ids, f), le) ==> Matches(f, t) && t in tasks.Values
    ensures forall i :: 0 <= i < |ids| && ids[i] in tasks && Matches(f, tasks[ids[i]]) ==>
      tasks[ids[i]] in Sequences.Sort(Select(tasks, ids, f), le)
  {
    var matched := Select(tasks, ids, f);
    var sorted := Sequences.Sort(matched, le);
    SelectExactly(tasks, ids, f);
    Sequences.SortPermutation(matched, le);
    forall t | t in sorted ensures t in matched {
      assert t in multiset(sorted);
    }
    forall i | 0 <= i < |ids| && ids[i] in tasks && Matches(f, tasks[ids[i]])
      ensures tasks[ids[i]] in sorted
    {
      assert tasks[ids[i]] in multiset(matched);
    }
  }

  /** The page envelope of `aggregatePaginate`. */
  datatype Page = Page(docs: seq<Task>, totalDocs: nat, page: nat, limit: nat)

  class Store {
    var tasks: map<ObjectId, Task>
    /** The ids in insertion (natural) order. */
    var order: seq<ObjectId>

    ghost predicate Valid()
      reads this
    {
      && (forall k :: k in tasks ==> tasks[k].id == k && IsLower(k) && ValidTask(tasks[k]))
      && (forall k :: k in tasks <==> k in order)
      && (forall i, j :: 0 <= i < j < |order| ==> order[i] != order[j])
    }

    constructor ()
      ensures Valid() && tasks == map[] && order == []
    {
      tasks := map[];
      order := [];
    }

    /** createTask. `id` is the fresh ObjectId the database assigns and
        `now` the current time. */
    method CreateTask(caller: ObjectId, f: TaskFields, id: ObjectId, now: int) returns (r: Result<Task>)
      requires Valid()
      requires IsValidObjectId(id) && IsLower(id) && id !in tasks
      modifies this
      ensures Valid()
      ensures !Truthy(f.title) ==> r == Err(BadRequest)
      ensures Truthy(f.title) ==> r == NewTask(id, caller, f, now)
      ensures r.Ok? ==> r.value.owner == caller && Visible(tasks, caller, id)
      ensures r.Ok? ==> tasks == old(tasks)[id := r.value] && order == old(order) + [id]
      ensures r.Err? ==> tasks == old(tasks) && order == old(order)
    {
      if !Truthy(f.title) {
        return Err(BadRequest);
      }
      r := NewTask(id, caller, f, now);
      if r.Ok? {
        tasks := tasks[id := r.value];
        order := order + [id];
      }
    }

    /** getTaskById: the result depends only on the caller's view, looked
        up under the ObjectId the request id casts to. */
    method GetById(caller: ObjectId, id: string) returns (r: Result<Task>)
      ensures !IsValidObjectId(id) ==> r == Err(BadRequest)
      ensures IsValidObjectId(id) && CastObjectId(id) in View(tasks, caller) ==>
        r == Ok(View(tasks, caller)[CastObjectId(id)])
      ensures IsValidObjectId(id) && CastObjectId(id) !in View(tasks, caller) ==> r == Err(NotFound)
      ensures r.Ok? ==> r.value.owner == caller && !r.value.isDeleted
    {
      if !IsValidObjectId(id) {
        return Err(BadRequest);
      }
      var key := CastObjectId(id);
      if Visible(tasks, caller, key) {
        r := Ok(tasks[key]);
      } else {
        r := Err(NotFound);
      }
    }

    /** getAllTasks: builds the match document field by field, then sorts
        and cuts out the requested page. */
    method List(caller: ObjectId, q: ListQuery) returns (p: Page)
      requires Valid()
      ensures p.page == EffectivePage(q) && p.limit == EffectiveLimit(q)
      ensures p.totalDocs == |Select(tasks, order, QueryFilter(caller, q))|
      ensures p.docs == Window(Sequences.Sort(Select(tasks, order, QueryFilter(caller, q)), TaskOrder(SortSpecOf(q))), p.page, p.limit)
      ensures forall t :: t in p.docs ==>
        && t.owner == caller && !t.isDeleted && t in tasks.Values
        && (Truthy(q.status) ==> StatusName(t.status) == q.status.value)
        && (Truthy(q.priority) ==> PriorityName(t.priority) == q.priority.value)
        && (Truthy(q.search) ==> SearchHit(t, q.search.value))
      ensures forall k :: k in tasks && Matches(QueryFilter(caller, q), tasks[k]) ==>
        tasks[k] in Sequences.Sort(Select(tasks, order, QueryFilter(caller, q)), TaskOrder(SortSpecOf(q)))
      ensures Sequences.Sorted(p.docs, TaskOrder(SortSpecOf(q)))
    {
      var f := Filter(caller, None, None, None);
      if Truthy(q.status) {
        f := f.(status := q.status);
      }
      if Truthy(q.priority) {
        f := f.(priority := q.priority);
      }
      if Truthy(q.search) {
        f := f.(search := q.search);
      }
      assert f == QueryFilter(caller, q);

      var matched := Select(tasks, order, f);
      var le := TaskOrder(SortSpecOf(q));
      var sorted := Sequences.Sort(matched, le);
      p := Page(Window(sorted, EffectivePage(q), EffectiveLimit(q)), |matched|, EffectivePage(q), EffectiveLimit(q));

      SortedSelection(tasks, order, f, le);
      WindowWithin(sorted, p.page, p.limit);
      TaskOrderIsTotalPreorder(SortSpecOf(q));
      Sequences.SortSorted(matched, le);
      WindowSorted(sorted, p.page, p.limit, le);
      forall k | k in tasks && Matches(f, tasks[k]) ensures tasks[k] in sorted {
        var i :| 0 <= i < |order| && order[i] == k;
      }
    }

    /** The pre-read of updateTask: whether `completedAt` goes into the
        `$set` document (`None` when it does not), and with which value.
        Whatever it decides, the caller's live task ends with the
        completion time `NextCompletedAt` prescribes; a task the caller
        cannot see gets no `completedAt` in the `$set`. */
    method CompletedAtField(caller: ObjectId, id: ObjectId, status: Option<string>, now: int)
      returns (field: Option<Option<int>>)
      ensures Visible(tasks, caller, id) ==>
        (if field.Some? then field.value else tasks[id].completedAt) == NextCompletedAt(tasks[id], status, now)
      ensures !Visible(tasks, caller, id) ==> field.None?
      ensures field.Some? ==> Truthy(status)
    {
      field := None;
      if status == Some("completed") {
        if Visible(tasks, caller, id) && tasks[id].status != Completed {
          field := Some(Some(now));
        }
      } else if Truthy(status) {
        if Visible(tasks, caller, id) && tasks[id].status == Completed {
          field := Some(None);
        }
      }
    }

    /** updateTask. The pre-read of lines 140-150 decides whether
        `completedAt` is put into the `$set` document; the update is then
        applied to the caller's live task in place. */
    method Update(caller: ObjectId, id: string, f: TaskFields, now: int) returns (r: Result<Task>)
      requires Valid()
      modifies this
      ensures Valid() && order == old(order)
      ensures !IsValidObjectId(id) ==> r == Err(BadRequest)
      ensures IsValidObjectId(id) && NoFieldGiven(f) ==> r == Err(BadRequest)
      ensures IsValidObjectId(id) && !NoFieldGiven(f) && !UpdateAccepted(f) ==> r == Err(SchemaViolation)
      ensures IsValidObjectId(id) && !NoFieldGiven(f) && UpdateAccepted(f) ==>
        r == if Visible(old(tasks), caller, CastObjectId(id)) then Ok(ApplyUpdate(old(tasks)[CastObjectId(id)], f, now))
             else Err(NotFound)
      ensures r.Ok? ==> IsValidObjectId(id) && tasks == old(tasks)[CastObjectId(id) := r.value]
      ensures r.Err? ==> tasks == old(tasks)
    {
      if !IsValidObjectId(id) {
        return Err(BadRequest);
      }
      if NoFieldGiven(f) {
        return Err(BadRequest);
      }
      var key := CastObjectId(id);
      var setCompletedAt := CompletedAtField(caller, key, f.status, now);
      if !UpdateAccepted(f) {
        return Err(SchemaViolation);
      }
      if !Visible(tasks, caller, key) {
        return Err(NotFound);
      }
      // the $set applied to the matched document
      var existing := tasks[key];
      var completedAt := if setCompletedAt.Some? then setCompletedAt.value else existing.completedAt;
      assert completedAt == NextCompletedAt(existing, f.status, now);
      var t := SetFields(existing, f, completedAt, now);
      assert t == ApplyUpdate(existing, f, now);
      tasks := tasks[key := t];
      r := Ok(t);
    }

    /** deleteTask: a soft delete of the caller's live task. */
    method Delete(caller: ObjectId, id: string, now: int) returns (r: Result<()>)
      requires Valid()
      modifies this
      ensures Valid() && order == old(order)
      ensures !IsValidObjectId(id) ==> r == Err(BadRequest)
      ensures IsValidObjectId(id) && !Visible(old(tasks), caller, CastObjectId(id)) ==> r == Err(NotFound)
      ensures IsValidObjectId(id) && Visible(old(tasks), caller, CastObjectId(id)) ==>
        r == Ok(()) && tasks == old(tasks)[CastObjectId(id) := SoftDeleted(old(tasks)[CastObjectId(id)], now)]
      ensures r.Ok? ==> IsValidObjectId(id) && CastObjectId(id) in tasks && !Visible(tasks, caller, CastObjectId(id))
      ensures r.Err? ==> tasks == old(tasks)
    {
      if !IsValidObjectId(id) {
        return Err(BadRequest);
      }
      var key := CastObjectId(id);
      if !Visible(tasks, caller, key) {
        return Err(NotFound);
      }
      tasks := tasks[key := SoftDeleted(tasks[key], now)];
      r := Ok(());
    }
  }

  /** Deleting the same task twice: the second call finds nothing live and
      fails with 404 rather than deleting again. */
  method DeleteTwice(s: Store, caller: ObjectId, id: string, now1: int, now2: int)
    returns (first: Result<()>, second: Result<()>)
    requires s.Valid()
    modifies s
    ensures first.Ok? ==> second == Err(NotFound)
    ensures first.Ok? ==>
      IsValidObjectId(id) && CastObjectId(id) in s.tasks && s.tasks[CastObjectId(id)].deletedAt == Some(now1)
  {
    first := s.Delete(caller, id, now1);
    second := s.Delete(caller, id, now2);
  }
}
