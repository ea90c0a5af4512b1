/** The record-store queries the task controller issues: each is a filter over
    the stored records followed, where the controller asks for it, by a sort. */
module TaskQueries {
  import opened Wrappers
  import opened TaskModel

  /** The filter documents of Backend/controllers/task.controller.js. */
  datatype Query =
      /** `{ user, assignedDate: { $gte: from, $lte: to } }` */
    | DateRange(user: UserId, from: int, to: int)
      /** `{ user, assignedDate: { $lt: before }, status: { $ne: "completed" } }` */
    | Overdue(user: UserId, before: int)
      /** `{ $or: [{ _id: parent, assignedDate: { $gte: from } }, { parentTask: parent, assignedDate: { $gte: from } }], user }` */
    | GroupFrom(user: UserId, parent: TaskId, from: int)
      /** `{ parentTask: parent, assignedDate: { $gt: after }, user }` */
    | ChildrenAfter(user: UserId, parent: TaskId, after: int)
      /** `{ _id: id }` */
    | WithId(id: TaskId)

  predicate Matches(q: Query, t: TaskRecord) {
    match q
    case DateRange(user, from, to) => t.user == user && from <= t.assignedDate <= to
    case Overdue(user, before) => t.user == user && t.assignedDate < before && t.status != Completed
    case GroupFrom(user, parent, from) =>
      t.user == user && (t.id == parent || t.parentTask == Some(parent)) && t.assignedDate >= from
    case ChildrenAfter(user, parent, after) =>
      t.user == user && t.parentTask == Some(parent) && t.assignedDate > after
    case WithId(id) => t.id == id
  }

  /** The records that match `q`, in store order (`find`). */
  function Select(ts: seq<TaskRecord>, q: Query): seq<TaskRecord> {
    if ts == [] then []
    else
      assert ts == [ts[0]] + ts[1..];
      (if Matches(q, ts[0]) then [ts[0]] else []) + Select(ts[1..], q)
  }

  /** The records that do not match `q`, in store order (`deleteMany` keeps these). */
  function Remove(ts: seq<TaskRecord>, q: Query): seq<TaskRecord> {
    if ts == [] then []
    else
      assert ts == [ts[0]] + ts[1..];
      (if Matches(q, ts[0]) then [] else [ts[0]]) + Remove(ts[1..], q)
  }

  /** `find` returns exactly the matching records, each as often as it is stored. */
  lemma {:induction false} SelectSpec(ts: seq<TaskRecord>, q: Query)
    ensures forall x :: x in Select(ts, q) <==> x in ts && Matches(q, x)
    ensures forall x :: multiset(Select(ts, q))[x] == if Matches(q, x) then multiset(ts)[x] else 0
  {
    if ts != [] {
      SelectSpec(ts[1..], q);
      assert ts == [ts[0]] + ts[1..];
    }
  }

  /** `deleteMany` keeps exactly the records that do not match. */
  lemma {:induction false} RemoveSpec(ts: seq<TaskRecord>, q: Query)
    ensures forall x :: x in Remove(ts, q) <==> x in ts && !Matches(q, x)
  {
    if ts != [] {
      RemoveSpec(ts[1..], q);
      assert ts == [ts[0]] + ts[1..];
    }
  }

  /** A query splits the store: every record is either selected or kept by a delete
      with that filter, never both and never lost. */
  lemma {:induction false} SelectRemovePartition(ts: seq<TaskRecord>, q: Query)
    ensures multiset(Select(ts, q)) + multiset(Remove(ts, q)) == multiset(ts)
  {
    if ts != [] {
      SelectRemovePartition(ts[1..], q);
      assert ts == [ts[0]] + ts[1..];
    }
  }

  /** Filtering distributes over concatenation: records appended to the store are
      selected after the earlier ones. */
  lemma {:induction false} SelectAppend(a: seq<TaskRecord>, b: seq<TaskRecord>, q: Query)
    ensures Select(a + b, q) == Select(a, q) + Select(b, q)
  {
    if a == [] {
      assert a + b == b;
    } else {
      var ab := a + b;
      assert ab[0] == a[0] && ab[1..] == a[1..] + b;
      SelectAppend(a[1..], b, q);
      var h := if Matches(q, a[0]) then [a[0]] else [];
      calc {
        Select(ab, q);
        h + Select(a[1..] + b, q);
        h + (Select(a[1..], q) + Select(b, q));
        (h + Select(a[1..], q)) + Select(b, q);
      }
    }
  }

  /** Deleting from a concatenation deletes from both parts. */
  lemma {:induction false} RemoveAppend(a: seq<TaskRecord>, b: seq<TaskRecord>, q: Query)
    ensures Remove(a + b, q) == Remove(a, q) + Remove(b, q)
  {
    if a == [] {
      assert a + b == b;
    } else {
      var ab := a + b;
      assert ab[0] == a[0] && ab[1..] == a[1..] + b;
      RemoveAppend(a[1..], b, q);
      var g := if Matches(q, a[0]) then [] else [a[0]];
      calc {
        Remove(ab, q);
        g + Remove(a[1..] + b, q);
        g + (Remove(a[1..], q) + Remove(b, q));
        (g + Remove(a[1..], q)) + Remove(b, q);
      }
    }
  }

  /** Ids strictly increase along the store: the store's order is insertion order and
      ids are handed out in increasing order, so ids are also unique. */
  ghost predicate IdsIncreasing(ts: seq<TaskRecord>) {
    forall i, j :: 0 <= i < j < |ts| ==> ts[i].id < ts[j].id
  }

  /** Deleting records keeps the survivors in order, so ids still increase. */
  lemma {:induction false} RemoveKeepsOrder(ts: seq<TaskRecord>, q: Query)
    requires IdsIncreasing(ts)
    ensures IdsIncreasing(Remove(ts, q))
  {
    if ts != [] {
      var tail := ts[1..];
      TailIds(ts);
      RemoveKeepsOrder(tail, q);
      RemoveSpec(tail, q);
      if !Matches(q, ts[0]) {
        ConsIds(ts[0], Remove(tail, q));
      }
    }
  }

  /** The tail of an increasing store is increasing and above its head. */
  lemma TailIds(ts: seq<TaskRecord>)
    requires IdsIncreasing(ts) && ts != []
    ensures IdsIncreasing(ts[1..])
    ensures forall y :: y in ts[1..] ==> ts[0].id < y.id
  {
    var tail := ts[1..];
    forall i, j | 0 <= i < j < |tail| ensures tail[i].id < tail[j].id {
      assert tail[i] == ts[i + 1] && tail[j] == ts[j + 1];
    }
    forall y | y in tail ensures ts[0].id < y.id {
      var k :| 0 <= k < |tail| && tail[k] == y;
      assert ts[k + 1] == y;
    }
  }

  /** A head below every element of an increasing sequence keeps it increasing. */
  lemma ConsIds(h: TaskRecord, rest: seq<TaskRecord>)
    requires IdsIncreasing(rest) && forall y :: y in rest ==> h.id < y.id
    ensures IdsIncreasing([h] + rest)
  {
    var r := [h] + rest;
    forall i, j | 0 <= i < j < |r| ensures r[i].id < r[j].id {
      if i == 0 {
        assert r[j] in rest;
      } else {
        assert r[i] == rest[i - 1] && r[j] == rest[j - 1];
      }
    }
  }

  /** `findById`: the position of the record with this id, if any. */
  function Find(ts: seq<TaskRecord>, id: TaskId): (r: Option<nat>)
    ensures r.Some? ==> r.value < |ts| && ts[r.value].id == id
    ensures r.None? <==> forall i :: 0 <= i < |ts| ==> ts[i].id != id
  {
    if ts == [] then None
    else if ts[0].id == id then Some(0)
    else match Find(ts[1..], id)
      case None => None
      case Some(k) => Some(k + 1)
  }

  /** The sort orders the controller requests. */
  datatype Order =
    | DateAscending       // `.sort({ assignedDate: 1 })`
    | CreatedDescending   // `.sort({ createdAt: -1 })`

  function Key(o: Order, t: TaskRecord): int {
    match o
    case DateAscending => t.assignedDate
    case CreatedDescending => -t.createdAt
  }

  ghost predicate SortedBy(s: seq<TaskRecord>, o: Order) {
    forall i, j :: 0 <= i < j < |s| ==> Key(o, s[i]) <= Key(o, s[j])
  }

  function Insert(x: TaskRecord, s: seq<TaskRecord>, o: Order): (r: seq<TaskRecord>)
    requires SortedBy(s, o)
    ensures multiset(r) == multiset(s) + multiset{x}
    ensures SortedBy(r, o)
  {
    if s == [] || Key(o, x) <= Key(o, s[0]) then [x] + s
    else
      SortedHead(s, o);
      var rest := Insert(x, s[1..], o);
      InsertAfterHead(x, s, o, rest);
      [s[0]] + rest
  }

  /** When `x` goes after the head, the head followed by the insertion into the rest
      is sorted and holds `s` and `x`. */
  lemma InsertAfterHead(x: TaskRecord, s: seq<TaskRecord>, o: Order, rest: seq<TaskRecord>)
    requires SortedBy(s, o) && s != [] && Key(o, s[0]) < Key(o, x)
    requires SortedBy(rest, o) && multiset(rest) == multiset(s[1..]) + multiset{x}
    ensures SortedBy([s[0]] + rest, o)
    ensures multiset([s[0]] + rest) == multiset(s) + multiset{x}
  {
    SortedHead(s, o);
    assert s == [s[0]] + s[1..];
    forall y | y in rest ensures Key(o, s[0]) <= Key(o, y) {
      assert y in multiset(rest);
    }
    ConsSorted(s[0], rest, o);
  }

  /** A sorted sequence stays sorted under a new head whose key is no larger than any
      of its elements'. */
  lemma ConsSorted(h: TaskRecord, rest: seq<TaskRecord>, o: Order)
    requires SortedBy(rest, o)
    requires forall y :: y in rest ==> Key(o, h) <= Key(o, y)
    ensures SortedBy([h] + rest, o)
  {
    var r := [h] + rest;
    forall i, j | 0 <= i < j < |r| ensures Key(o, r[i]) <= Key(o, r[j]) {
      if i == 0 {
        assert r[j] in rest;
      } else {
        assert r[i] == rest[i - 1] && r[j] == rest[j - 1];
      }
    }
  }

  lemma SortedHead(s: seq<TaskRecord>, o: Order)
    requires SortedBy(s, o) && s != []
    ensures SortedBy(s[1..], o)
    ensures forall y :: y in s[1..] ==> Key(o, s[0]) <= Key(o, y)
  {
    forall y | y in s[1..] ensures Key(o, s[0]) <= Key(o, y) {
      var k :| 0 <= k < |s[1..]| && s[1..][k] == y;
      assert s[k + 1] == y;
    }
  }

  /** The store's sort: a permutation of its input, ordered by the key. */
  function Sort(s: seq<TaskRecord>, o: Order): (r: seq<TaskRecord>)
    ensures multiset(r) == multiset(s)
    ensures SortedBy(r, o)
  {
    if s == [] then []
    else
      assert s == [s[0]] + s[1..];
      Insert(s[0], Sort(s[1..], o), o)
  }
}
