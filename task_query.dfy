/**
 * The query service: filtered and paginated listing, bulk lookup by ids and
 * aggregate counts, all computed over the task table, and the read-through
 * point lookup, the one query that writes (it fills the cache on a miss).
 */
module TaskQuery {
  import opened Wrappers
  import opened TaskTypes
  import opened Backend
  import opened StringOrder

  // ------------------------------------------------------------ enumeration

  /** The ids of a sequence of tasks. */
  function Ids(s: seq<Task>): (r: seq<Id>)
    ensures |r| == |s| && forall i :: 0 <= i < |s| ==> r[i] == s[i].id
  {
    seq(|s|, i requires 0 <= i < |s| => s[i].id)
  }

  /** No two tasks of the sequence share an id. */
  predicate DistinctIds(s: seq<Task>) {
    forall i, j :: 0 <= i < j < |s| ==> s[i].id != s[j].id
  }

  /** Every element of the sequence is the row stored under its id. */
  predicate AllStored(s: seq<Task>, tasks: map<Id, Task>) {
    forall t :: t in s ==> t.id in tasks && tasks[t.id] == t
  }

  /** The rows of the table, each once, in ascending id order. */
  function Rows(tasks: map<Id, Task>): (r: seq<Task>)
    requires WellKeyed(tasks)
    ensures |r| == |tasks|
    ensures AllStored(r, tasks)
    ensures forall id :: id in tasks ==> tasks[id] in r
    ensures DistinctIds(r)
  {
    var keys := SortedKeys(tasks.Keys);
    var r := seq(|keys|, i requires 0 <= i < |keys| => tasks[keys[i]]);
    RowsOfKeys(tasks, keys, r);
    r
  }

  /** The rows stored under a list of distinct keys, one per key of the table. */
  lemma RowsOfKeys(tasks: map<Id, Task>, keys: seq<Id>, r: seq<Task>)
    requires WellKeyed(tasks)
    requires Distinct(keys) && forall id :: id in keys <==> id in tasks
    requires |r| == |keys| && forall i :: 0 <= i < |keys| ==> r[i] == tasks[keys[i]]
    ensures AllStored(r, tasks)
    ensures forall id :: id in tasks ==> tasks[id] in r
    ensures DistinctIds(r)
  {
    assert forall i :: 0 <= i < |r| ==> r[i].id == keys[i];
    forall t | t in r
      ensures t.id in tasks && tasks[t.id] == t
    {
      var i :| 0 <= i < |r| && r[i] == t;
    }
    forall i, j | 0 <= i < j < |r|
      ensures r[i].id != r[j].id
    {
      assert keys[i] != keys[j];
    }
    forall id | id in tasks
      ensures tasks[id] in r
    {
      var i :| 0 <= i < |keys| && keys[i] == id;
      assert r[i] == tasks[id];
    }
  }

  /** The elements of `s` that satisfy `p`, in their order. */
  function Filter(s: seq<Task>, p: Task -> bool): (r: seq<Task>)
    ensures forall t :: t in r <==> t in s && p(t)
    ensures |r| <= |s|
    ensures DistinctIds(s) ==> DistinctIds(r)
  {
    if s == [] then []
    else if p(s[0]) then
      var rest := Filter(s[1..], p);
      assert DistinctIds(s) ==> forall t :: t in rest ==> t.id != s[0].id by {
        if DistinctIds(s) {
          forall t | t in rest
            ensures t.id != s[0].id
          {
            var j :| 0 <= j < |s[1..]| && s[1..][j] == t;
            assert s[j + 1] == t;
          }
        }
      }
      [s[0]] + rest
    else Filter(s[1..], p)
  }

  /** A sequence with distinct ids has as many elements as it has ids. */
  lemma IdCount(s: seq<Task>, ids: set<Id>)
    requires DistinctIds(s)
    requires forall id :: id in ids <==> exists t :: t in s && t.id == id
    ensures |ids| == |s|
  {
    var xs := Ids(s);
    assert Distinct(xs);
    DistinctCardinality(xs);
    assert (set x | x in xs) == ids by {
      forall id
        ensures id in ids <==> id in xs
      {
        if id in ids {
          var t :| t in s && t.id == id;
          var i :| 0 <= i < |s| && s[i] == t;
          assert xs[i] == id;
        }
      }
    }
  }

  // ------------------------------------------------------------ filters

  /** The conjunctive filters of a listing; an absent filter constrains nothing. */
  datatype TaskFilter = TaskFilter(
    status: Option<Status>,
    priority: Option<Priority>,
    userId: Option<Id>,
    dueBefore: Option<Timestamp>)

  predicate Matches(t: Task, f: TaskFilter) {
    && (f.status.Some? ==> t.status == StatusValue(f.status.value))
    && (f.priority.Some? ==> t.priority == PriorityValue(f.priority.value))
    && (Present(f.userId) ==> t.userId == f.userId.value)
    && (f.dueBefore.Some? ==> t.dueDate.Some? && t.dueDate.value < f.dueBefore.value)
  }

  /** The ids of the rows the filters select. */
  function MatchingIds(tasks: map<Id, Task>, f: TaskFilter): set<Id> {
    set id | id in tasks && Matches(tasks[id], f)
  }

  /** The rows the filters select, in table order. */
  function Matching(tasks: map<Id, Task>, f: TaskFilter): (r: seq<Task>)
    requires WellKeyed(tasks)
    ensures AllStored(r, tasks) && DistinctIds(r)
    ensures forall t :: t in r <==> t.id in tasks && tasks[t.id] == t && Matches(t, f)
    ensures |r| == |MatchingIds(tasks, f)|
  {
    var r := Filter(Rows(tasks), (t: Task) => Matches(t, f));
    IdCount(r, MatchingIds(tasks, f));
    r
  }

  // ------------------------------------------------------------ ordering

  /**
   * The columns a listing may be sorted on: the two timestamps and the text
   * columns of a row (`status` and `priority` as their stored strings).
   */
  datatype SortField = CreatedAt | DueDate | Identifier | Title | Description | StatusText | PriorityText | UserId
  datatype SortOrder = Asc | Desc

  /** The value of a row in a sort column: a timestamp (NULL for a missing due date) or a text. */
  datatype ColumnValue = Time(at: Option<Timestamp>) | Text(text: string)

  function SortKey(t: Task, field: SortField): ColumnValue {
    match field
    case CreatedAt => Time(Some(t.createdAt))
    case DueDate => Time(t.dueDate)
    case Identifier => Text(t.id)
    case Title => Text(t.title)
    case Description => Text(t.description)
    case StatusText => Text(t.status)
    case PriorityText => Text(t.priority)
    case UserId => Text(t.userId)
  }

  /**
   * Ascending comparison: timestamps by value with NULL above every value
   * (NULLS LAST ascending, FIRST descending), texts in code-point order. A
   * column holds one kind of value; the mixed cases only keep the order total.
   */
  predicate KeyLe(a: ColumnValue, b: ColumnValue) {
    match (a, b)
    case (Time(x), Time(y)) => y.None? || (x.Some? && x.value <= y.value)
    case (Text(x), Text(y)) => LexLe(x, y)
    case (Time(_), Text(_)) => true
    case (Text(_), Time(_)) => false
  }

  lemma KeyLeTotal(a: ColumnValue, b: ColumnValue)
    ensures KeyLe(a, b) || KeyLe(b, a)
  {
    if a.Text? && b.Text? {
      LexTotal(a.text, b.text);
    }
  }

  lemma KeyLeTransitive(a: ColumnValue, b: ColumnValue, c: ColumnValue)
    requires KeyLe(a, b) && KeyLe(b, c)
    ensures KeyLe(a, c)
  {
    if a.Text? && b.Text? && c.Text? {
      LexTransitive(a.text, b.text, c.text);
    }
  }

  /** `a` may come before `b` in the requested order. */
  predicate Precedes(a: Task, b: Task, field: SortField, order: SortOrder) {
    match order
    case Asc => KeyLe(SortKey(a, field), SortKey(b, field))
    case Desc => KeyLe(SortKey(b, field), SortKey(a, field))
  }

  predicate Sorted(s: seq<Task>, field: SortField, order: SortOrder) {
    forall i, j :: 0 <= i < j < |s| ==> Precedes(s[i], s[j], field, order)
  }

  lemma PrecedesTotal(a: Task, b: Task, field: SortField, order: SortOrder)
    ensures Precedes(a, b, field, order) || Precedes(b, a, field, order)
  {
    KeyLeTotal(SortKey(a, field), SortKey(b, field));
  }

  lemma PrecedesTransitive(a: Task, b: Task, c: Task, field: SortField, order: SortOrder)
    requires Precedes(a, b, field, order) && Precedes(b, c, field, order)
    ensures Precedes(a, c, field, order)
  {
    match order
    case Asc => KeyLeTransitive(SortKey(a, field), SortKey(b, field), SortKey(c, field));
    case Desc => KeyLeTransitive(SortKey(c, field), SortKey(b, field), SortKey(a, field));
  }

  /** Prepending an element that precedes the head of a sorted sequence keeps it sorted. */
  lemma SortedCons(x: Task, s: seq<Task>, field: SortField, order: SortOrder)
    requires Sorted(s, field, order)
    requires forall y :: y in s ==> Precedes(x, y, field, order)
    ensures Sorted([x] + s, field, order)
  {
    var r := [x] + s;
    forall i, j | 0 <= i < j < |r|
      ensures Precedes(r[i], r[j], field, order)
    {
      if i > 0 {
        assert r[i] == s[i - 1] && r[j] == s[j - 1];
      } else {
        assert r[j] in s;
      }
    }
  }

  function Insert(x: Task, s: seq<Task>, field: SortField, order: SortOrder): (r: seq<Task>)
    requires Sorted(s, field, order)
    ensures Sorted(r, field, order)
    ensures multiset(r) == multiset(s) + multiset{x}
  {
    if s == [] then [x]
    else if Precedes(x, s[0], field, order) then
      PrecedesSorted(x, s, field, order);
      SortedCons(x, s, field, order);
      [x] + s
    else
      SortedTail(s, field, order);
      var rest := Insert(x, s[1..], field, order);
      HeadPrecedesInsert(x, s, rest, field, order);
      SortedCons(s[0], rest, field, order);
      assert s == [s[0]] + s[1..];
      [s[0]] + rest
  }

  /** What precedes the head of a sorted sequence precedes all of it. */
  lemma PrecedesSorted(x: Task, s: seq<Task>, field: SortField, order: SortOrder)
    requires s != [] && Sorted(s, field, order) && Precedes(x, s[0], field, order)
    ensures forall y :: y in s ==> Precedes(x, y, field, order)
  {
    forall y | y in s
      ensures Precedes(x, y, field, order)
    {
      var j :| 0 <= j < |s| && s[j] == y;
      if j > 0 {
        PrecedesTransitive(x, s[0], y, field, order);
      }
    }
  }

  /** The tail of a sorted sequence is sorted. */
  lemma SortedTail(s: seq<Task>, field: SortField, order: SortOrder)
    requires s != [] && Sorted(s, field, order)
    ensures Sorted(s[1..], field, order)
  {
    var tail := s[1..];
    forall i, j | 0 <= i < j < |tail|
      ensures Precedes(tail[i], tail[j], field, order)
    {
      assert tail[i] == s[i + 1] && tail[j] == s[j + 1];
    }
  }

  /** When `x` does not precede the head, the head precedes everything of the tail with `x` inserted. */
  lemma HeadPrecedesInsert(x: Task, s: seq<Task>, rest: seq<Task>, field: SortField, order: SortOrder)
    requires s != [] && Sorted(s, field, order) && !Precedes(x, s[0], field, order)
    requires multiset(rest) == multiset(s[1..]) + multiset{x}
    ensures forall y :: y in rest ==> Precedes(s[0], y, field, order)
  {
    var tail := s[1..];
    forall y | y in rest
      ensures Precedes(s[0], y, field, order)
    {
      assert y in multiset(rest);
      if y == x {
        PrecedesTotal(x, s[0], field, order);
      } else {
        assert y in multiset(tail);
        var j :| 0 <= j < |tail| && tail[j] == y;
        assert s[j + 1] == y;
      }
    }
  }

  /** The rows in the requested order (an insertion sort, stable on ties). */
  function SortTasks(s: seq<Task>, field: SortField, order: SortOrder): (r: seq<Task>)
    ensures Sorted(r, field, order)
    ensures multiset(r) == multiset(s)
    ensures |r| == |s|
  {
    if s == [] then []
    else
      assert s == [s[0]] + s[1..];
      Insert(s[0], SortTasks(s[1..], field, order), field, order)
  }

  // ------------------------------------------------------------ listing

  datatype PaginationOptions = PaginationOptions(
    page: Option<int>,
    limit: Option<int>,
    sortBy: Option<SortField>,
    sortOrder: Option<SortOrder>)

  /** What the request validation of the listing guarantees: page and limit are at least 1. */
  predicate ValidPagination(o: PaginationOptions) {
    (o.page.Some? ==> o.page.value >= 1) && (o.limit.Some? ==> o.limit.value >= 1)
  }

  datatype Meta = Meta(total: nat, page: nat, limit: nat, totalPages: nat)
  datatype Paginated = Paginated(data: seq<Task>, meta: Meta)

  function PageOf(o: PaginationOptions): (r: nat)
    requires ValidPagination(o)
    ensures r >= 1 && (o.page.None? ==> r == 1) && (o.page.Some? ==> r == o.page.value)
  {
    if o.page.Some? then o.page.value else 1
  }

  function LimitOf(o: PaginationOptions): (r: nat)
    requires ValidPagination(o)
    ensures r >= 1 && (o.limit.None? ==> r == 10) && (o.limit.Some? ==> r == o.limit.value)
  {
    if o.limit.Some? then o.limit.value else 10
  }

  /** The rows skipped before the page: `(page - 1) * limit`. */
  function SkipOf(o: PaginationOptions): (r: nat)
    requires ValidPagination(o)
    ensures r == (PageOf(o) - 1) * LimitOf(o)
  {
    var before: nat := PageOf(o) - 1;
    var limit: nat := LimitOf(o);
    assert before * limit >= 0;
    before * limit
  }

  function SortByOf(o: PaginationOptions): SortField {
    o.sortBy.GetOr(CreatedAt)
  }

  function SortOrderOf(o: PaginationOptions): SortOrder {
    o.sortOrder.GetOr(Desc)
  }

  /** `Math.ceil(total / limit)`: the least number of pages of `limit` rows holding `total` rows. */
  function CeilDiv(total: nat, limit: nat): (r: nat)
    requires limit >= 1
    ensures r * limit >= total
    ensures r > 0 ==> (r - 1) * limit < total
  {
    var q := (total + limit - 1) / limit;
    assert q * limit + (total + limit - 1) % limit == total + limit - 1;
    q
  }

  function Min(a: int, b: int): int {
    if a < b then a else b
  }

  /** The selected rows in the requested order. */
  function SortedMatches(tasks: map<Id, Task>, f: TaskFilter, field: SortField, order: SortOrder): (r: seq<Task>)
    requires WellKeyed(tasks)
    ensures Sorted(r, field, order)
    ensures forall t :: t in r <==> t.id in tasks && tasks[t.id] == t && Matches(t, f)
    ensures |r| == |MatchingIds(tasks, f)|
  {
    var m := Matching(tasks, f);
    var r := SortTasks(m, field, order);
    assert forall t :: t in r <==> t in m by {
      forall t
        ensures t in r <==> t in m
      {
        assert t in r <==> t in multiset(r);
        assert t in m <==> t in multiset(m);
      }
    }
    r
  }

  /** The rows of one page: at most `limit` rows after the first `skip`. */
  function PageSlice(all: seq<Task>, skip: nat, limit: nat): (r: seq<Task>)
    ensures r == all[Min(skip, |all|)..Min(skip + limit, |all|)]
    ensures |r| <= limit
    ensures |r| == (if skip < |all| then Min(limit, |all| - skip) else 0)
    ensures forall t :: t in r ==> t in all
    ensures forall field, order :: Sorted(all, field, order) ==> Sorted(r, field, order)
  {
    var lo := Min(skip, |all|);
    var r := all[lo..Min(skip + limit, |all|)];
    assert forall i :: 0 <= i < |r| ==> r[i] == all[lo + i];
    r
  }

  /**
   * The listing: the selected rows, sorted, with the first `(page-1)*limit`
   * skipped and at most `limit` taken, and the count of all selected rows.
   */
  function ListTasks(tasks: map<Id, Task>, o: PaginationOptions, f: TaskFilter): (r: Paginated)
    requires WellKeyed(tasks)
    requires ValidPagination(o)
    ensures forall t :: t in r.data ==> Matches(t, f) && t.id in tasks && tasks[t.id] == t
    ensures Sorted(r.data, SortByOf(o), SortOrderOf(o))
    ensures |r.data| <= LimitOf(o)
    ensures r.meta.total == |MatchingIds(tasks, f)|
    ensures r.meta.page == PageOf(o) && r.meta.limit == LimitOf(o)
    ensures r.meta.totalPages * r.meta.limit >= r.meta.total
    ensures r.meta.totalPages > 0 ==> (r.meta.totalPages - 1) * r.meta.limit < r.meta.total
    ensures r.data == PageSlice(SortedMatches(tasks, f, SortByOf(o), SortOrderOf(o)),
                                SkipOf(o), LimitOf(o))
  {
    var limit := LimitOf(o);
    var all := SortedMatches(tasks, f, SortByOf(o), SortOrderOf(o));
    var data := PageSlice(all, SkipOf(o), limit);
    Paginated(data, Meta(|all|, PageOf(o), limit, CeilDiv(|all|, limit)))
  }

  /** With no pagination options, the listing is the first ten rows by creation time, newest first. */
  lemma ListDefaults(tasks: map<Id, Task>, f: TaskFilter)
    requires WellKeyed(tasks)
    ensures var r := ListTasks(tasks, PaginationOptions(None, None, None, None), f);
      r.meta.page == 1 && r.meta.limit == 10 && Sorted(r.data, CreatedAt, Desc)
      && r.data == PageSlice(SortedMatches(tasks, f, CreatedAt, Desc), 0, 10)
  {
    var o := PaginationOptions(None, None, None, None);
    assert SkipOf(o) == 0;
  }

  // ------------------------------------------------------------ bulk lookup and counts

  /** The stored rows whose id is one of `ids`, each once. */
  function TasksByIds(tasks: map<Id, Task>, ids: seq<Id>): (r: seq<Task>)
    requires WellKeyed(tasks)
    ensures forall t :: t in r <==> t.id in ids && t.id in tasks && tasks[t.id] == t
    ensures DistinctIds(r)
    ensures forall id :: id in ids && id in tasks ==> tasks[id] in r
  {
    Filter(Rows(tasks), (t: Task) => t.id in ids)
  }

  datatype Stats = Stats(total: nat, completed: nat, inProgress: nat, pending: nat, highPriority: nat)

  /** The ids of the rows whose status is `s`. */
  function StatusIds(tasks: map<Id, Task>, s: Status): (r: set<Id>)
    ensures r <= tasks.Keys
  {
    set id | id in tasks && tasks[id].status == StatusValue(s)
  }

  function CountStatus(tasks: map<Id, Task>, s: Status): nat {
    |StatusIds(tasks, s)|
  }

  /** No row has two statuses. */
  lemma StatusIdsDisjoint(tasks: map<Id, Task>)
    ensures StatusIds(tasks, Completed) * StatusIds(tasks, InProgress) == {}
    ensures (StatusIds(tasks, Completed) + StatusIds(tasks, InProgress)) * StatusIds(tasks, Pending) == {}
  {
  }

  /** The aggregate counts: every row, and the rows with each status and with HIGH priority. */
  function GetStats(tasks: map<Id, Task>): (r: Stats)
    ensures r.total == |tasks|
    ensures r.completed == CountStatus(tasks, Completed)
    ensures r.inProgress == CountStatus(tasks, InProgress)
    ensures r.pending == CountStatus(tasks, Pending)
    ensures r.highPriority == |set id | id in tasks && tasks[id].priority == PriorityValue(High)|
    ensures r.completed <= r.total && r.inProgress <= r.total && r.pending <= r.total
    ensures r.highPriority <= r.total
    ensures r.completed + r.inProgress + r.pending <= r.total
  {
    var done := StatusIds(tasks, Completed);
    var busy := StatusIds(tasks, InProgress);
    var waiting := StatusIds(tasks, Pending);
    var high := set id | id in tasks && tasks[id].priority == PriorityValue(High);
    assert |tasks.Keys| == |tasks|;
    CardinalityMonotone(done, tasks.Keys);
    CardinalityMonotone(busy, tasks.Keys);
    CardinalityMonotone(waiting, tasks.Keys);
    CardinalityMonotone(high, tasks.Keys);
    CardinalityMonotone(done + busy + waiting, tasks.Keys);
    StatusIdsDisjoint(tasks);
    Stats(|tasks|, |done|, |busy|, |waiting|, |high|)
  }

  lemma CardinalityMonotone<T>(a: set<T>, b: set<T>)
    requires a <= b
    ensures |a| <= |b|
  {
    assert b == a + (b - a);
  }

  /** When every stored status is an enumeration value, the three status counts add up to the total. */
  lemma StatusCountsPartition(tasks: map<Id, Task>)
    requires forall id :: id in tasks ==> IsStatusValue(tasks[id].status)
    ensures var r := GetStats(tasks); r.completed + r.inProgress + r.pending == r.total
  {
    var done := StatusIds(tasks, Completed);
    var busy := StatusIds(tasks, InProgress);
    var waiting := StatusIds(tasks, Pending);
    forall id | id in tasks
      ensures id in done + busy + waiting
    {
      assert IsStatusValue(tasks[id].status);
    }
    assert done + busy + waiting == tasks.Keys;
    StatusIdsDisjoint(tasks);
    assert |tasks.Keys| == |tasks|;
  }

  // ------------------------------------------------------------ point lookup

  /** The cache holds, for every cached task key, the row stored under that id. */
  ghost predicate Coherent(s: Snapshot) {
    forall id :: TaskKey(id) in s.cache ==> id in s.tasks && s.cache[TaskKey(id)].value == s.tasks[id]
  }

  /**
   * The read-through lookup: a cached value is returned without reading the
   * table; on a miss the stored row is returned and cached for 300 seconds;
   * an absent row is not cached.
   */
  function GetTaskById(s: Snapshot, id: Id): (r: (Snapshot, Option<Task>))
    ensures TaskKey(id) in s.cache ==> r == (s, Some(s.cache[TaskKey(id)].value))
    ensures TaskKey(id) !in s.cache && id in s.tasks ==>
      r.1 == Some(s.tasks[id])
      && r.0 == s.(cache := s.cache[TaskKey(id) := CacheEntry(s.tasks[id], Some(DefaultCacheTtlSeconds))])
    ensures TaskKey(id) !in s.cache && id !in s.tasks ==> r == (s, None)
    ensures r.0.tasks == s.tasks && r.0.locks == s.locks && r.0.queue == s.queue && r.0.counters == s.counters
  {
    var key := TaskKey(id);
    match CacheGet(s, key)
    case Some(cached) => (s, Some(cached))
    case None =>
      if id in s.tasks then (CacheSet(s, key, s.tasks[id], Some(DefaultCacheTtlSeconds)), Some(s.tasks[id]))
      else (s, None)
  }

  /** Over a coherent cache the lookup returns exactly the stored row and keeps the cache coherent. */
  lemma LookupCoherent(s: Snapshot, id: Id)
    requires Coherent(s)
    ensures GetTaskById(s, id).1 == (if id in s.tasks then Some(s.tasks[id]) else None)
    ensures Coherent(GetTaskById(s, id).0)
  {
    var r := GetTaskById(s, id).0;
    forall x | TaskKey(x) in r.cache
      ensures x in r.tasks && r.cache[TaskKey(x)].value == r.tasks[x]
    {
      if TaskKey(x) == TaskKey(id) {
        TaskKeyInjective(x, id);
      }
    }
  }

  /** A second lookup is a cache hit and returns what the first returned. */
  lemma LookupTwice(s: Snapshot, id: Id)
    ensures var (s1, v1) := GetTaskById(s, id);
      GetTaskById(s1, id) == (s1, v1)
  {
  }
}
