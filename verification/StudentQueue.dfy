/** The persistent priority queue of students: a table whose rows keep their ids in insertion order, read back
    ordered by descending priority and ascending id, and the one `active` id kept in memory. */
module StudentQueue {
  import opened Common
  import opened StableSort

  datatype Status = Pending | InProgress | Completed | Failed

  datatype Person = Person(name: string, email: string, level: string, city: string)

  datatype Row = Row(id: nat, person: Person, priority: int, status: Status)

  /** The table in id order, the next id (ids are never reused), and the active id. */
  datatype Queue = Queue(rows: seq<Row>, nextId: nat, active: Option<nat>)

  datatype Op =
    | Enqueue(person: Person, priority: int)
    | Dequeue
    | Finish(id: nat, success: bool)
    | Reset(id: nat)
    | Clear

  const EMPTY := Queue([], 1, None)

  function ByPriorityThenId(): (Row, Row) -> bool {
    (x: Row, y: Row) => x.priority > y.priority || (x.priority == y.priority && x.id <= y.id)
  }

  function ByPriority(): (Row, Row) -> bool { (x: Row, y: Row) => x.priority >= y.priority }

  predicate IsPending(r: Row) { r.status.Pending? }

  function PendingRows(q: Queue): seq<Row> { Filter(q.rows, IsPending) }

  /** `get_queue(status="pending")` */
  function PendingList(q: Queue): seq<Row> { Sort(PendingRows(q), ByPriorityThenId()) }

  function SetRow(r: Row, id: nat, status: Status): Row { if r.id == id then r.(status := status) else r }

  /** The UPDATE of one row. */
  function SetStatus(rows: seq<Row>, id: nat, status: Status): (t: seq<Row>)
    ensures |t| == |rows| && forall i :: 0 <= i < |rows| ==> t[i] == SetRow(rows[i], id, status)
  {
    seq(|rows|, i requires 0 <= i < |rows| => SetRow(rows[i], id, status))
  }

  function Release(q: Queue, id: nat): Option<nat> { if q.active == Some(id) then None else q.active }

  function Next(q: Queue, op: Op): Queue {
    match op
    case Enqueue(person, priority) =>
      q.(rows := q.rows + [Row(q.nextId, person, priority, Pending)], nextId := q.nextId + 1)
    case Dequeue =>
      if PendingList(q) == [] then q
      else
        var id := PendingList(q)[0].id;
        q.(rows := SetStatus(q.rows, id, InProgress), active := Some(id))
    case Finish(id, success) =>
      q.(rows := SetStatus(q.rows, id, if success then Completed else Failed), active := Release(q, id))
    case Reset(id) => q.(rows := SetStatus(q.rows, id, Pending), active := Release(q, id))
    case Clear => q.(rows := [], active := None)
  }

  function Run(q: Queue, ops: seq<Op>): Queue
    decreases |ops|
  {
    if ops == [] then q else Run(Next(q, ops[0]), ops[1..])
  }

  // ---------------------------------------------------------------------------
  // What every operation keeps.
  // ---------------------------------------------------------------------------

  ghost predicate Increasing(rows: seq<Row>) { forall i, j :: 0 <= i < j < |rows| ==> rows[i].id < rows[j].id }

  ghost predicate IdsIncrease(rows: seq<Row>, below: nat) {
    && Increasing(rows)
    && (forall i :: 0 <= i < |rows| ==> rows[i].id < below)
  }

  ghost predicate ActiveOk(q: Queue) {
    q.active.Some? ==> exists r :: r in q.rows && r.id == q.active.value && r.status.InProgress?
  }

  ghost predicate Inv(q: Queue) { IdsIncrease(q.rows, q.nextId) && ActiveOk(q) }

  lemma SetStatusActive(q: Queue, id: nat, status: Status, active: Option<nat>)
    requires ActiveOk(q)
    requires active == Release(q, id) || (active == q.active && status.InProgress?)
    ensures ActiveOk(q.(rows := SetStatus(q.rows, id, status), active := active))
  {
  }

  lemma PendingListMembers(q: Queue)
    ensures forall r :: r in PendingList(q) <==> r in q.rows && r.status.Pending?
  {
    SortMembers(PendingRows(q), ByPriorityThenId());
    FilterMembers(q.rows, IsPending);
  }

  lemma DequeueActive(q: Queue)
    requires PendingList(q) != []
    ensures ActiveOk(Next(q, Dequeue))
  {
    var r := PendingList(q)[0];
    PendingListMembers(q);
    assert r in PendingList(q);
    var i :| 0 <= i < |q.rows| && q.rows[i] == r;
    assert SetStatus(q.rows, r.id, InProgress)[i] in Next(q, Dequeue).rows;
  }

  lemma NextKeepsInv(q: Queue, op: Op)
    requires Inv(q)
    ensures Inv(Next(q, op))
  {
    match op
    case Enqueue(person, priority) =>
      if q.active.Some? {
        var r :| r in q.rows && r.id == q.active.value && r.status.InProgress?;
        assert r in Next(q, op).rows;
      }
    case Dequeue => if PendingList(q) != [] { DequeueActive(q); }
    case Finish(id, success) => SetStatusActive(q, id, if success then Completed else Failed, Release(q, id));
    case Reset(id) => SetStatusActive(q, id, Pending, Release(q, id));
    case Clear =>
  }

  /** After any operations on an empty queue: the ids increase, and a set `active` names a row that is in
      progress. */
  lemma {:induction false} ActiveIsInProgress(q: Queue, ops: seq<Op>)
    requires Inv(q)
    ensures IdsIncrease(Run(q, ops).rows, Run(q, ops).nextId)
    ensures var t := Run(q, ops);
            t.active.Some? ==> exists r :: r in t.rows && r.id == t.active.value && r.status.InProgress?
    decreases |ops|
  {
    if ops == [] {
    } else {
      NextKeepsInv(q, ops[0]);
      ActiveIsInProgress(Next(q, ops[0]), ops[1..]);
    }
  }

  // ---------------------------------------------------------------------------
  // The order of the queue.
  // ---------------------------------------------------------------------------

  lemma OrdersArePreorders()
    ensures Preorder(ByPriorityThenId()) && Preorder(ByPriority())
  {
  }

  lemma {:induction false} SameInsert(s: seq<Row>, x: Row)
    requires forall y :: y in s ==> y.id < x.id
    ensures Insert(s, x, ByPriorityThenId()) == Insert(s, x, ByPriority())
  {
    if s == [] {
    } else {
      assert s[|s| - 1] in s;
      assert forall y :: y in s[..|s| - 1] ==> y in s;
      SameInsert(s[..|s| - 1], x);
    }
  }

  lemma {:induction false} SameSort(s: seq<Row>)
    requires Increasing(s)
    ensures Sort(s, ByPriorityThenId()) == Sort(s, ByPriority())
  {
    if s == [] {
    } else {
      var n := |s| - 1;
      SameSort(s[..n]);
      SortMembers(s[..n], ByPriority());
      SameInsert(Sort(s[..n], ByPriority()), s[n]);
    }
  }

  lemma {:induction false} FilterIncreases(rows: seq<Row>, p: Row -> bool)
    requires Increasing(rows)
    ensures Increasing(Filter(rows, p))
  {
    if rows == [] {
    } else {
      var n := |rows| - 1;
      FilterIncreases(rows[..n], p);
      var f := Filter(rows[..n], p);
      FilterMembers(rows[..n], p);
      forall r | r in f
        ensures r.id < rows[n].id
      {
        var i :| 0 <= i < n && rows[..n][i] == r;
      }
    }
  }

  /** ORDER BY priority DESC, id ASC is the stable sort of the pending rows, in the order they were enqueued,
      by descending priority. */
  lemma PendingListIsStable(q: Queue)
    requires Inv(q)
    ensures IsStableSort(PendingRows(q), PendingList(q), ByPriority())
  {
    OrdersArePreorders();
    FilterIncreases(q.rows, IsPending);
    SameSort(PendingRows(q));
    SortIsStable(PendingRows(q), ByPriority());
  }

  /** `enqueue` hands back the id at the end of the pending list: the new row's own id if and only if no
      pending row has a lower priority. */
  lemma EnqueueReturnsOwnIdIff(q: Queue, person: Person, priority: int)
    requires Inv(q)
    ensures var list := PendingList(Next(q, Enqueue(person, priority)));
            && list != []
            && (list[|list| - 1].id == q.nextId <==> forall r :: r in q.rows && r.status.Pending? ==> r.priority >= priority)
  {
    var t := Next(q, Enqueue(person, priority));
    var list, new' := PendingList(t), Row(q.nextId, person, priority, Pending);
    PendingListMembers(t);
    assert new' in t.rows;
    assert new' in list;
    LastIsLargest(t);
    var last := list[|list| - 1];
    assert last in list;
    assert ByPriorityThenId()(new', last);
    if last.id == q.nextId {
      forall r | r in q.rows && r.status.Pending?
        ensures r.priority >= priority
      {
        assert r in t.rows;
        assert r in list;
        assert ByPriorityThenId()(r, last);
      }
    } else {
      assert last in q.rows;
    }
  }

  lemma LastIsLargest(q: Queue)
    requires PendingList(q) != []
    ensures var list := PendingList(q); forall r :: r in list ==> ByPriorityThenId()(r, list[|list| - 1])
  {
    OrdersArePreorders();
    SortSorted(PendingRows(q), ByPriorityThenId());
  }

  // ---------------------------------------------------------------------------
  // Draining.
  // ---------------------------------------------------------------------------

  function OtherThan(id: nat): Row -> bool { (r: Row) => r.id != id }

  function Outside(ids: set<nat>): Row -> bool { (r: Row) => r.id !in ids }

  predicate Drains(op: Op) { op.Dequeue? || op.Finish? }

  predicate PendingId(q: Queue, id: nat) { exists r :: r in q.rows && r.id == id && r.status.Pending? }

  /** What the dequeues among `ops` return, in order. */
  function Dequeued(q: Queue, ops: seq<Op>): seq<Row>
    decreases |ops|
  {
    if ops == [] then []
    else (if ops[0].Dequeue? && PendingList(q) != [] then [PendingList(q)[0]] else [])
         + Dequeued(Next(q, ops[0]), ops[1..])
  }

  /** The ids that were completed or failed before they were dequeued. */
  function Skipped(q: Queue, ops: seq<Op>): set<nat>
    decreases |ops|
  {
    if ops == [] then {}
    else (if ops[0].Finish? && PendingId(q, ops[0].id) then {ops[0].id} else {}) + Skipped(Next(q, ops[0]), ops[1..])
  }

  lemma {:induction false} PendingAfterUpdate(rows: seq<Row>, id: nat, status: Status)
    requires !status.Pending?
    ensures Filter(SetStatus(rows, id, status), IsPending) == Filter(Filter(rows, IsPending), OtherThan(id))
  {
    if rows == [] {
    } else {
      var n := |rows| - 1;
      PendingAfterUpdate(rows[..n], id, status);
      assert SetStatus(rows, id, status)[..n] == SetStatus(rows[..n], id, status);
      FilterAppend(Filter(rows[..n], IsPending), rows[n], OtherThan(id));
    }
  }

  lemma ListAfterUpdate(q: Queue, t: Queue, id: nat, status: Status)
    requires !status.Pending? && t.rows == SetStatus(q.rows, id, status)
    ensures PendingList(t) == Filter(PendingList(q), OtherThan(id))
  {
    OrdersArePreorders();
    PendingAfterUpdate(q.rows, id, status);
    SortFilter(PendingRows(q), OtherThan(id), ByPriorityThenId());
  }

  lemma {:induction false} FilterKeepsAll(s: seq<Row>, p: Row -> bool)
    requires forall r :: r in s ==> p(r)
    ensures Filter(s, p) == s
  {
    if s == [] {
    } else {
      assert s[|s| - 1] in s && forall r :: r in s[..|s| - 1] ==> r in s;
      FilterKeepsAll(s[..|s| - 1], p);
      assert s == s[..|s| - 1] + [s[|s| - 1]];
    }
  }

  lemma {:induction false} FilterTwice(s: seq<Row>, id: nat, ids: set<nat>)
    ensures Filter(Filter(s, OtherThan(id)), Outside(ids)) == Filter(s, Outside({id} + ids))
  {
    if s == [] {
    } else {
      var n := |s| - 1;
      FilterTwice(s[..n], id, ids);
      FilterAppend(Filter(s[..n], OtherThan(id)), s[n], Outside(ids));
    }
  }

  function Kept(r: Row, p: Row -> bool): seq<Row> { if p(r) then [r] else [] }

  lemma FilterLast(s: seq<Row>, p: Row -> bool)
    requires s != []
    ensures Filter(s, p) == Filter(s[..|s| - 1], p) + Kept(s[|s| - 1], p)
  {
  }

  lemma Regroup(a: seq<Row>, b: seq<Row>, c: seq<Row>)
    ensures a + b + c == a + (b + c)
  {
  }

  lemma {:induction false} FilterHead(s: seq<Row>, p: Row -> bool)
    requires s != []
    ensures Filter(s, p) == Kept(s[0], p) + Filter(s[1..], p)
  {
    var n := |s| - 1;
    FilterLast(s, p);
    if n == 0 {
      assert s[1..] == [] && s[..n] == [];
    } else {
      FilterHead(s[..n], p);
      FilterLast(s[1..], p);
      assert s[..n][1..] == s[1..][..n - 1];
      Regroup(Kept(s[0], p), Filter(s[..n][1..], p), Kept(s[n], p));
    }
  }

  function IdOf(r: Row): nat { r.id }

  lemma RemoveHead(list: seq<Row>)
    requires list != [] && DistinctBy(list, IdOf)
    ensures Filter(list, OtherThan(list[0].id)) == list[1..]
  {
    FilterHead(list, OtherThan(list[0].id));
    FilterKeepsAll(list[1..], OtherThan(list[0].id));
  }

  /** A dequeue takes the head of the list and leaves the tail. */
  lemma DequeueLeavesTail(q: Queue)
    requires Inv(q) && PendingList(q) != []
    ensures PendingList(Next(q, Dequeue)) == PendingList(q)[1..]
  {
    FilterIncreases(q.rows, IsPending);
    SortDistinct(PendingRows(q), ByPriorityThenId(), IdOf);
    RemoveHead(PendingList(q));
    ListAfterUpdate(q, Next(q, Dequeue), PendingList(q)[0].id, InProgress);
  }

  lemma {:induction false} SkippedArePending(q: Queue, ops: seq<Op>)
    requires forall op :: op in ops ==> Drains(op)
    ensures forall id :: id in Skipped(q, ops) ==> PendingId(q, id)
    decreases |ops|
  {
    if ops == [] {
    } else {
      var t := Next(q, ops[0]);
      assert forall op :: op in ops[1..] ==> op in ops;
      assert Drains(ops[0]) by { assert ops[0] in ops; }
      SkippedArePending(t, ops[1..]);
      forall id | PendingId(t, id)
        ensures PendingId(q, id)
      {
        var r :| r in t.rows && r.id == id && r.status.Pending?;
        var i :| 0 <= i < |t.rows| && t.rows[i] == r;
        assert q.rows[i] in q.rows;
      }
    }
  }

  /** What has been dequeued is not pending any more, so it cannot be skipped later. */
  lemma HeadNotSkipped(q: Queue, ops: seq<Op>)
    requires PendingList(q) != [] && forall op :: op in ops ==> Drains(op)
    ensures PendingList(q)[0].id !in Skipped(Next(q, Dequeue), ops)
  {
    SkippedArePending(Next(q, Dequeue), ops);
  }

  /** Draining with dequeues, completions and failures, but no enqueue or reset in between: what the dequeues
      return, followed by what is still pending at the end, is the pending list of the beginning, in its
      order, without the rows that were finished behind the queue's back. */
  lemma {:induction false} DrainsInOrder(q: Queue, ops: seq<Op>)
    requires Inv(q) && forall op :: op in ops ==> Drains(op)
    ensures Dequeued(q, ops) + PendingList(Run(q, ops)) == Filter(PendingList(q), Outside(Skipped(q, ops)))
    decreases |ops|
  {
    if ops == [] {
      FilterKeepsAll(PendingList(q), Outside({}));
    } else {
      var op, t := ops[0], Next(q, ops[0]);
      assert forall o :: o in ops[1..] ==> o in ops;
      assert op in ops;
      NextKeepsInv(q, op);
      DrainsInOrder(t, ops[1..]);
      if op.Dequeue? {
        DrainStepDequeue(q, ops);
      } else {
        DrainStepFinish(q, ops);
      }
    }
  }

  lemma DrainStepDequeue(q: Queue, ops: seq<Op>)
    requires Inv(q) && ops != [] && ops[0].Dequeue? && forall op :: op in ops[1..] ==> Drains(op)
    requires var t := Next(q, ops[0]);
             Dequeued(t, ops[1..]) + PendingList(Run(t, ops[1..])) == Filter(PendingList(t), Outside(Skipped(t, ops[1..])))
    ensures Dequeued(q, ops) + PendingList(Run(q, ops)) == Filter(PendingList(q), Outside(Skipped(q, ops)))
  {
    var t, rest := Next(q, ops[0]), ops[1..];
    assert Skipped(q, ops) == Skipped(t, rest);
    if PendingList(q) != [] {
      var h := PendingList(q)[0];
      DequeueLeavesTail(q);
      HeadNotSkipped(q, rest);
      FilterHead(PendingList(q), Outside(Skipped(t, rest)));
      Regroup([h], Dequeued(t, rest), PendingList(Run(t, rest)));
    }
  }

  lemma FinishFilters(q: Queue, id: nat, success: bool, ids: set<nat>)
    ensures Filter(PendingList(Next(q, Finish(id, success))), Outside(ids)) ==
            Filter(PendingList(q), Outside(if PendingId(q, id) then {id} + ids else ids))
  {
    ListAfterUpdate(q, Next(q, Finish(id, success)), id, if success then Completed else Failed);
    if PendingId(q, id) {
      FilterTwice(PendingList(q), id, ids);
    } else {
      PendingListMembers(q);
      FilterKeepsAll(PendingList(q), OtherThan(id));
    }
  }

  lemma DrainStepFinish(q: Queue, ops: seq<Op>)
    requires ops != [] && ops[0].Finish?
    requires var t := Next(q, ops[0]);
             Dequeued(t, ops[1..]) + PendingList(Run(t, ops[1..])) == Filter(PendingList(t), Outside(Skipped(t, ops[1..])))
    ensures Dequeued(q, ops) + PendingList(Run(q, ops)) == Filter(PendingList(q), Outside(Skipped(q, ops)))
  {
    var t, rest := Next(q, ops[0]), ops[1..];
    FinishFilters(q, ops[0].id, ops[0].success, Skipped(t, rest));
    assert Skipped(q, ops) == if PendingId(q, ops[0].id) then {ops[0].id} + Skipped(t, rest) else Skipped(t, rest);
    assert Dequeued(q, ops) == Dequeued(t, rest);
  }

  // ---------------------------------------------------------------------------
  // The object.
  // ---------------------------------------------------------------------------

  datatype Summary = Summary(total: nat, pending: nat, inProgress: nat, completed: nat, failed: nat, active: Option<nat>)

  /** The row with this id has the status, and nothing else is changed. */
  ghost predicate StatusSet(before: seq<Row>, after: seq<Row>, id: nat, status: Status) {
    && |after| == |before|
    && forall i :: 0 <= i < |after| ==>
         after[i] == if before[i].id == id then before[i].(status := status) else before[i]
  }

  /** The row to be taken next: the oldest of the pending ones with the highest priority. */
  ghost predicate IsNext(rows: seq<Row>, r: Row) {
    && r in rows && r.status.Pending?
    && forall o :: o in rows && o.status.Pending? ==> o.priority < r.priority || (o.priority == r.priority && r.id <= o.id)
  }

  lemma HeadIsNext(q: Queue)
    ensures PendingList(q) == [] <==> forall r :: r in q.rows ==> !r.status.Pending?
    ensures PendingList(q) != [] ==> IsNext(q.rows, PendingList(q)[0])
  {
    PendingListMembers(q);
    OrdersArePreorders();
    SortSorted(PendingRows(q), ByPriorityThenId());
    var list := PendingList(q);
    if list != [] {
      assert list[0] in list;
      forall o | o in q.rows && o.status.Pending?
        ensures o.priority < list[0].priority || (o.priority == list[0].priority && list[0].id <= o.id)
      {
        assert o in list;
        assert ByPriorityThenId()(list[0], o);
      }
    } else {
      assert forall r :: r in q.rows && r.status.Pending? ==> r in list;
    }
  }

  function WithStatus(status: Status): Row -> bool { (r: Row) => r.status == status }

  class StudentQueue {
    var rows: seq<Row>
    var nextId: nat
    var active: Option<nat>

    function View(): Queue
      reads this
    {
      Queue(rows, nextId, active)
    }

    constructor ()
      ensures View() == EMPTY
    {
      rows, nextId, active := [], 1, None;
    }

    method AddToQueue(person: Person, priority: int)
      modifies this`rows, this`nextId
      ensures View() == Next(old(View()), Enqueue(person, priority))
      ensures rows == old(rows) + [Row(old(nextId), person, priority, Pending)] && nextId == old(nextId) + 1
    {
      rows, nextId := rows + [Row(nextId, person, priority, Pending)], nextId + 1;
    }

    method UpdateQueueItem(id: nat, status: Status)
      modifies this`rows
      ensures rows == SetStatus(old(rows), id, status)
      ensures StatusSet(old(rows), rows, id, status)
    {
      rows := SetStatus(rows, id, status);
    }

    method EnqueueStudent(person: Person, priority: int) returns (id: nat)
      requires Inv(View())
      modifies this
      ensures View() == Next(old(View()), Enqueue(person, priority)) && Inv(View())
      ensures PendingList(View()) != [] && id == PendingList(View())[|PendingList(View())| - 1].id
      ensures id == old(nextId) <==> forall r :: r in old(rows) && r.status.Pending? ==> r.priority >= priority
    {
      AddToQueue(person, priority);
      var list := PendingList(View());
      EnqueueReturnsOwnIdIff(old(View()), person, priority);
      NextKeepsInv(old(View()), Enqueue(person, priority));
      id := list[|list| - 1].id;
    }

    method DequeueStudent() returns (item: Option<Row>)
      modifies this
      ensures View() == Next(old(View()), Dequeue)
      ensures item == if PendingList(old(View())) == [] then None else Some(PendingList(old(View()))[0])
      ensures item.None? <==> forall r :: r in old(rows) ==> !r.status.Pending?
      ensures item.None? ==> rows == old(rows) && active == old(active)
      ensures item.Some? ==>
                && IsNext(old(rows), item.value) && StatusSet(old(rows), rows, item.value.id, InProgress)
                && active == Some(item.value.id)
    {
      HeadIsNext(View());
      var pending := PendingList(View());
      if pending == [] { return None; }
      UpdateQueueItem(pending[0].id, InProgress);
      active := Some(pending[0].id);
      return Some(pending[0]);
    }

    method FinishItem(id: nat, success: bool)
      modifies this
      ensures View() == Next(old(View()), Finish(id, success))
      ensures StatusSet(old(rows), rows, id, if success then Completed else Failed)
      ensures active == (if old(active) == Some(id) then None else old(active)) && nextId == old(nextId)
    {
      UpdateQueueItem(id, if success then Completed else Failed);
      if active == Some(id) { active := None; }
    }

    method ResetItem(id: nat)
      modifies this
      ensures View() == Next(old(View()), Reset(id))
      ensures StatusSet(old(rows), rows, id, Pending)
      ensures active == (if old(active) == Some(id) then None else old(active)) && nextId == old(nextId)
    {
      UpdateQueueItem(id, Pending);
      if active == Some(id) { active := None; }
    }

    method ClearAll()
      modifies this
      ensures View() == Next(old(View()), Clear)
      ensures rows == [] && active == None && nextId == old(nextId)
    {
      rows, active := [], None;
    }

    /** The four status counts, which add up to the total. */
    method Summarize() returns (s: Summary)
      ensures s.total == |rows| && s.active == active
      ensures s.pending == |Filter(rows, WithStatus(Pending))| && s.inProgress == |Filter(rows, WithStatus(InProgress))|
      ensures s.completed == |Filter(rows, WithStatus(Completed))| && s.failed == |Filter(rows, WithStatus(Failed))|
      ensures s.pending + s.inProgress + s.completed + s.failed == s.total
    {
      s := Summary(|rows|, 0, 0, 0, 0, active);
      for i := 0 to |rows|
        invariant s.total == |rows| && s.active == active
        invariant s.pending == |Filter(rows[..i], WithStatus(Pending))|
        invariant s.inProgress == |Filter(rows[..i], WithStatus(InProgress))|
        invariant s.completed == |Filter(rows[..i], WithStatus(Completed))|
        invariant s.failed == |Filter(rows[..i], WithStatus(Failed))|
        invariant s.pending + s.inProgress + s.completed + s.failed == i
      {
        assert rows[..i + 1][..i] == rows[..i];
        match rows[i].status
        case Pending => s := s.(pending := s.pending + 1);
        case InProgress => s := s.(inProgress := s.inProgress + 1);
        case Completed => s := s.(completed := s.completed + 1);
        case Failed => s := s.(failed := s.failed + 1);
      }
      assert rows[..|rows|] == rows;
    }
  }
}
