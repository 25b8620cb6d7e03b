/**
 * The kanban board's drag-and-drop move (`handleDragEnd`): an optimistic local move of a
 * task between the three columns, followed by a best-effort status write that is never
 * rolled back.
 */
module TaskBoard {
  import opened Js
  import opened Status
  import opened Listing

  /** Where a drag ended: over nothing, or over the droppable with the given id. */
  datatype Drop = NoTarget | Over(id: string)

  /** The remote `repair_orders` status update the move issues. */
  datatype StatusWrite = StatusWrite(orderId: string, status: string)

  /** The board after the drop, the write issued (if any), whether a failed write was
      logged, and whether the local update crashes: an update naming a bucket the board does
      not have spreads `undefined`, which throws when React applies it, so the columns shown
      stay as they were. */
  datatype DragResult = DragResult(columns: Board, write: Option<StatusWrite>, logged: bool, crashes: bool)

  /** What a droppable id says about the column it stands for: none (the id lacks
      "column-", or nothing is left once that is cut out), one of the three columns, or a
      name that is no column. */
  datatype DropTarget = NoColumn | KnownColumn(col: Column) | UnknownColumn(name: string)

  const COLUMN_PREFIX: string := "column-"

  /** The droppable id of a column. */
  function ColumnDropId(c: Column): string {
    COLUMN_PREFIX + ColumnKey(c)
  }

  /** The column whose key is `name`. */
  function ColumnNamed(name: string): (r: Option<Column>)
    ensures r.Some? ==> ColumnKey(r.value) == name
    ensures r.None? ==> forall c :: ColumnKey(c) != name
  {
    if name == "todo" then Some(Todo)
    else if name == "inProgress" then Some(InProgress)
    else if name == "done" then Some(Done)
    else None
  }

  /** `overId.includes("column-") ? overId.replace("column-", "") : null`, as the guard
      (which treats "" as falsy) and the bucket lookup `prev[overColumn]` read it. */
  function DroppedColumn(overId: string): (r: DropTarget)
    ensures !Includes(overId, COLUMN_PREFIX) ==> r == NoColumn
    ensures Includes(overId, COLUMN_PREFIX) ==>
      var name := ReplaceFirst(overId, COLUMN_PREFIX, "");
      && (r == NoColumn <==> name == "")
      && (r.KnownColumn? ==> ColumnKey(r.col) == name)
      && (r.UnknownColumn? ==> r.name == name && forall c :: ColumnKey(c) != name)
  {
    if !Includes(overId, COLUMN_PREFIX) then NoColumn
    else
      var name := ReplaceFirst(overId, COLUMN_PREFIX, "");
      if name == "" then NoColumn
      else match ColumnNamed(name)
        case Some(c) => KnownColumn(c)
        case None => UnknownColumn(name)
  }

  /** The three columns concatenated: todo, then in-progress, then done. */
  function All(b: Board): seq<Item> {
    b.todo + b.inProgress + b.done
  }

  /** The first task of `s` with the given id (`Array.prototype.find`). */
  function Find(s: seq<Item>, id: string): (r: Option<Item>)
    ensures r.Some? ==> exists i :: 0 <= i < |s| && s[i] == r.value && r.value.id == id
                                    && forall j :: 0 <= j < i ==> s[j].id != id
    ensures r.None? ==> forall x :: x in s ==> x.id != id
  {
    if s == [] then None
    else if s[0].id == id then Some(s[0])
    else
      var r := Find(s[1..], id);
      if r.Some? then
        ghost var i :| 0 <= i < |s[1..]| && s[1..][i] == r.value && r.value.id == id
                       && forall j :: 0 <= j < i ==> s[1..][j].id != id;
        assert s[i + 1] == r.value;
        assert forall j :: 0 <= j < i + 1 ==> s[j].id != id by {
          forall j | 0 <= j < i + 1
            ensures s[j].id != id
          {
            if j > 0 {
              assert s[j] == s[1..][j - 1];
            }
          }
        }
        r
      else r
  }

  /** `findTaskAll`: the first task with the id, searching todo, in-progress, then done. */
  function FindTaskAll(b: Board, id: string): Option<Item> {
    Find(All(b), id)
  }

  /** `filter((t) => t.id !== id)` */
  function RemoveId(s: seq<Item>, id: string): (r: seq<Item>)
    ensures |r| == |s| - CountId(s, id)
  {
    if s == [] then []
    else
      var prefix := s[..|s| - 1];
      var last := s[|s| - 1];
      RemoveId(prefix, id) + (if last.id == id then [] else [last])
  }

  /** The filter keeps exactly the tasks with another id. */
  lemma {:induction false} RemoveIdMembers(s: seq<Item>, id: string)
    ensures forall x :: x in RemoveId(s, id) <==> x in s && x.id != id
  {
    if s != [] {
      var p, last := s[..|s| - 1], s[|s| - 1];
      RemoveIdMembers(p, id);
      assert s == p + [last];
    }
  }

  /** The filter distributes over concatenation ... */
  lemma {:induction false} RemoveIdAppend(a: seq<Item>, b: seq<Item>, id: string)
    ensures RemoveId(a + b, id) == RemoveId(a, id) + RemoveId(b, id)
  {
    if b == [] {
      assert a + b == a;
    } else {
      var b', last := b[..|b| - 1], b[|b| - 1];
      RemoveIdAppend(a, b', id);
      var ab := a + b;
      assert ab[..|ab| - 1] == a + b' && ab[|ab| - 1] == last;
      RemoveIdLast(ab, id);
      RemoveIdLast(b, id);
    }
  }

  lemma RemoveIdLast(s: seq<Item>, id: string)
    requires s != []
    ensures RemoveId(s, id) == RemoveId(s[..|s| - 1], id) + RemoveId([s[|s| - 1]], id)
  {
    RemoveIdSingle(s[|s| - 1], id);
  }

  /** ... and on one task keeps it exactly when its id differs, so `RemoveId` is the filter:
      the remaining tasks stay in their order. */
  lemma RemoveIdSingle(x: Item, id: string)
    ensures RemoveId([x], id) == if x.id == id then [] else [x]
  {
    assert [x][..0] == [];
  }

  /** How many tasks of `s` carry the id. */
  function CountId(s: seq<Item>, id: string): nat {
    if s == [] then 0
    else CountId(s[..|s| - 1], id) + (if s[|s| - 1].id == id then 1 else 0)
  }

  /** Every task sits in the column its status names. */
  ghost predicate WellPlaced(b: Board) {
    forall c: Column, x: Item :: x in b.Get(c) ==> x.status == c
  }

  /** No two tasks on the board share an id. */
  ghost predicate UniqueIds(b: Board) {
    forall id: string :: CountId(All(b), id) <= 1
  }

  /** The moved task: same task, new status and the new status's colour. */
  function Moved(task: Item, to: Column): Item {
    task.(status := to, statusColor := ColumnColor(to))
  }

  /** `handleDragEnd`. The local columns are updated before, and independently of, the
      remote write; `writeFails` is the store's answer to that write. */
  function DragEnd(b: Board, activeId: string, drop: Drop, writeFails: bool): (r: DragResult)
    ensures r.write.None? ==> r.columns == b && !r.logged && !r.crashes
    ensures r.write.Some? ==> r.write.value.orderId == activeId && FindTaskAll(b, activeId).Some? && drop.Over?
    ensures r.write.Some? && !r.crashes ==>
      && IsPersisted(r.write.value.status)
      && DroppedColumn(drop.id) == KnownColumn(DbToColumn(r.write.value.status))
      && FindTaskAll(b, activeId).value.status != DbToColumn(r.write.value.status)
    ensures r.crashes <==>
      drop.Over? && DroppedColumn(drop.id).UnknownColumn? && FindTaskAll(b, activeId).Some?
    ensures r.crashes ==> r.columns == b && r.write == Some(StatusWrite(activeId, PENDING))
    ensures r.logged <==> r.write.Some? && writeFails
  {
    if drop.NoTarget? then DragResult(b, None, false, false)
    else
      var over := DroppedColumn(drop.id);
      var current := FindTaskAll(b, activeId);
      if over.NoColumn? || current.None? then DragResult(b, None, false, false)
      else if over.UnknownColumn? then
        // the task's status is a column key, so it differs from the stray name; the
        // board's `localStatusToDb` falls back to "Pending"
        DragResult(b, Some(StatusWrite(activeId, PENDING)), writeFails, true)
      else if current.value.status != over.col then
        var task := current.value;
        var from, to := task.status, over.col;
        var columns := b.Set(from, RemoveId(b.Get(from), task.id))
                        .Set(to, b.Get(to) + [Moved(task, to)]);
        ColumnRoundTrip(to);
        DragResult(columns, Some(StatusWrite(activeId, ColumnToDb(to))), writeFails, false)
      else
        DragResult(b, None, false, false)
  }

  // ---------------------------------------------------------------------------
  // Properties of the drop target

  /** Each column's own droppable id names that column. */
  lemma ColumnIdsNameTheirColumn(c: Column)
    ensures DroppedColumn(ColumnDropId(c)) == KnownColumn(c)
  {
    var s := ColumnDropId(c);
    assert s[..|COLUMN_PREFIX|] == COLUMN_PREFIX;
    assert IndexOf(s, COLUMN_PREFIX) == Some(0);
    assert ReplaceFirst(s, COLUMN_PREFIX, "") == ColumnKey(c) by {
      assert s[|COLUMN_PREFIX|..] == ColumnKey(c);
    }
  }

  /** Ids without "column-" (the task cards' ids) name no column. */
  lemma CardIdsNameNoColumn(overId: string)
    requires forall k :: !OccursAt(overId, COLUMN_PREFIX, k)
    ensures DroppedColumn(overId) == NoColumn
  {
  }

  /** A leftover that is a column key names that column wherever "column-" stood. */
  lemma EmbeddedPrefixNamesColumn()
    ensures DroppedColumn("todo" + COLUMN_PREFIX) == KnownColumn(Todo)
  {
    var t := "todo" + COLUMN_PREFIX;
    var t1, t2, t3, t4 := t[1..], t[2..], t[3..], t[4..];
    assert t1[1..] == t2 && t2[1..] == t3 && t3[1..] == t4 && t4 == COLUMN_PREFIX;
    assert t4[..7] == COLUMN_PREFIX;
    assert IndexOf(t4, COLUMN_PREFIX) == Some(0);
    assert t3[..7] != COLUMN_PREFIX by { assert t3[0] != COLUMN_PREFIX[0]; }
    assert IndexOf(t3, COLUMN_PREFIX) == Some(1);
    assert t2[..7] != COLUMN_PREFIX by { assert t2[0] != COLUMN_PREFIX[0]; }
    assert IndexOf(t2, COLUMN_PREFIX) == Some(2);
    assert t1[..7] != COLUMN_PREFIX by { assert t1[0] != COLUMN_PREFIX[0]; }
    assert IndexOf(t1, COLUMN_PREFIX) == Some(3);
    assert t[..7] != COLUMN_PREFIX by { assert t[0] != COLUMN_PREFIX[0]; }
    assert IndexOf(t, COLUMN_PREFIX) == Some(4);
    assert t[..4] == "todo" && t[11..] == [];
  }

  /** "column-" alone leaves "", which is falsy: no column. A leftover that is not a column
      key names no bucket of the board. */
  lemma BareAndStrayIds()
    ensures DroppedColumn(COLUMN_PREFIX) == NoColumn
    ensures DroppedColumn(COLUMN_PREFIX + "x") == UnknownColumn("x")
  {
    assert COLUMN_PREFIX[..|COLUMN_PREFIX|] == COLUMN_PREFIX;
    assert IndexOf(COLUMN_PREFIX, COLUMN_PREFIX) == Some(0);
    var s := COLUMN_PREFIX + "x";
    assert s[..|COLUMN_PREFIX|] == COLUMN_PREFIX;
    assert IndexOf(s, COLUMN_PREFIX) == Some(0);
    assert s[|COLUMN_PREFIX|..] == "x";
  }

  // ---------------------------------------------------------------------------
  // Properties of the move

  /** A drop over nothing changes nothing and writes nothing. */
  lemma DropOutsideIsNoOp(b: Board, activeId: string, writeFails: bool)
    ensures DragEnd(b, activeId, NoTarget, writeFails) == DragResult(b, None, false, false)
  {
  }

  /** A drop over something that names no column, over the task's own column, or of a task
      that is not on the board, changes nothing and writes nothing. */
  lemma NonMovesAreNoOps(b: Board, activeId: string, overId: string, writeFails: bool)
    requires || DroppedColumn(overId).NoColumn?
             || FindTaskAll(b, activeId).None?
             || (DroppedColumn(overId).KnownColumn?
                 && FindTaskAll(b, activeId).value.status == DroppedColumn(overId).col)
    ensures DragEnd(b, activeId, Over(overId), writeFails) == DragResult(b, None, false, false)
  {
  }

  /** A drop of a task on the board over an id whose leftover names no column: "Pending" is
      written for the task, and the local update crashes. */
  lemma StrayColumnWritesPending(b: Board, activeId: string, writeFails: bool)
    requires FindTaskAll(b, activeId).Some?
    ensures DragEnd(b, activeId, Over(COLUMN_PREFIX + "x"), writeFails)
            == DragResult(b, Some(StatusWrite(activeId, "Pending")), writeFails, true)
  {
    BareAndStrayIds();
  }

  /** A real move: the task leaves its old column (every copy of its id does), is appended
      at the end of the target column with the target's status and colour, the third
      column is untouched, and the store is asked for the target's persisted status. The
      remote answer does not change the local columns: nothing is rolled back. */
  lemma MoveShape(b: Board, activeId: string, overId: string, to: Column, writeFails: bool)
    requires DroppedColumn(overId) == KnownColumn(to)
    requires FindTaskAll(b, activeId).Some?
    requires FindTaskAll(b, activeId).value.status != to
    ensures var task := FindTaskAll(b, activeId).value;
      var from := task.status;
      var r := DragEnd(b, activeId, Over(overId), writeFails);
      && r.columns.Get(from) == RemoveId(b.Get(from), activeId)
      && r.columns.Get(to) == b.Get(to) + [Moved(task, to)]
      && (forall c :: c != from && c != to ==> r.columns.Get(c) == b.Get(c))
      && r.write == Some(StatusWrite(activeId, ColumnToDb(to)))
      && !r.crashes
      && r.columns == DragEnd(b, activeId, Over(overId), !writeFails).columns
  {
  }

  /** The moved task keeps every field except its status and colour. */
  lemma MovedKeepsFields(task: Item, to: Column)
    ensures var m := Moved(task, to);
      && m.status == to && m.statusColor == ColumnColor(to)
      && m.id == task.id && m.title == task.title && m.vehicle == task.vehicle
      && m.date == task.date && m.description == task.description
      && m.customColor == task.customColor
  {
  }

  lemma {:induction false} CountIdAppend(a: seq<Item>, b: seq<Item>, id: string)
    ensures CountId(a + b, id) == CountId(a, id) + CountId(b, id)
  {
    if b == [] {
      assert a + b == a;
    } else {
      var b' := b[..|b| - 1];
      CountIdAppend(a, b', id);
      assert (a + b)[..|a + b| - 1] == a + b';
    }
  }

  lemma {:induction false} CountIdPositive(s: seq<Item>, x: Item)
    requires x in s
    ensures CountId(s, x.id) >= 1
  {
    var prefix := s[..|s| - 1];
    if s[|s| - 1] != x {
      assert x in prefix by {
        assert s == prefix + [s[|s| - 1]];
      }
      CountIdPositive(prefix, x);
    }
  }

  lemma {:induction false} CountIdRemoved(s: seq<Item>, id: string, other: string)
    ensures CountId(RemoveId(s, id), other) == if other == id then 0 else CountId(s, other)
  {
    if s != [] {
      var prefix := s[..|s| - 1];
      var last := s[|s| - 1];
      var tail := if last.id == id then [] else [last];
      assert RemoveId(s, id) == RemoveId(prefix, id) + tail;
      CountIdRemoved(prefix, id, other);
      CountIdAppend(RemoveId(prefix, id), tail, other);
      if tail != [] {
        CountIdSingle(last, other);
      }
    }
  }

  lemma CountIdSingle(x: Item, id: string)
    ensures CountId([x], id) == if x.id == id then 1 else 0
  {
    assert [x][..0] == [];
  }

  lemma CountIdAll(b: Board, id: string)
    ensures CountId(All(b), id) == CountId(b.todo, id) + CountId(b.inProgress, id) + CountId(b.done, id)
  {
    CountIdAppend(b.todo + b.inProgress, b.done, id);
    CountIdAppend(b.todo, b.inProgress, id);
  }

  /** On a well-placed board with unique ids, the task found for an id occurs exactly once,
      in the column its status names. */
  lemma FoundOnce(b: Board, id: string)
    requires WellPlaced(b) && UniqueIds(b)
    requires FindTaskAll(b, id).Some?
    ensures var t := FindTaskAll(b, id).value;
      CountId(b.Get(t.status), id) == 1
  {
    var t := FindTaskAll(b, id).value;
    assert t in b.Get(t.status) by {
      assert t in All(b);
      if t in b.todo {
        assert t in b.Get(Todo);
      } else if t in b.inProgress {
        assert t in b.Get(InProgress);
      } else {
        assert t in b.Get(Done);
      }
    }
    CountIdPositive(b.Get(t.status), t);
    CountIdAll(b, id);
    assert CountId(All(b), id) <= 1;
  }

  /** A move keeps every task in the column its status names. */
  lemma MovePreservesPlacement(b: Board, activeId: string, drop: Drop, writeFails: bool)
    requires WellPlaced(b)
    ensures WellPlaced(DragEnd(b, activeId, drop, writeFails).columns)
  {
    var r := DragEnd(b, activeId, drop, writeFails);
    if r.write.Some? && !r.crashes {
      var to := DroppedColumn(drop.id).col;
      var task := FindTaskAll(b, activeId).value;
      MoveShape(b, activeId, drop.id, to, writeFails);
      RemoveIdMembers(b.Get(task.status), activeId);
      forall c: Column, x: Item | x in r.columns.Get(c)
        ensures x.status == c
      {
        if c == to && x !in b.Get(to) {
          assert x == Moved(task, to);
        }
      }
    }
  }

  /** On a well-placed board with unique ids a move keeps the number of tasks. */
  lemma MovePreservesCount(b: Board, activeId: string, drop: Drop, writeFails: bool)
    requires WellPlaced(b) && UniqueIds(b)
    ensures DragEnd(b, activeId, drop, writeFails).columns.Size() == b.Size()
  {
    var r := DragEnd(b, activeId, drop, writeFails);
    if r.write.Some? && !r.crashes {
      var to := DroppedColumn(drop.id).col;
      var from := FindTaskAll(b, activeId).value.status;
      MoveShape(b, activeId, drop.id, to, writeFails);
      FoundOnce(b, activeId);
      SizeByColumns(b, from, to);
      SizeByColumns(r.columns, from, to);
    }
  }

  lemma SizeByColumns(b: Board, c: Column, d: Column)
    requires c != d
    ensures b.Size() == |b.Get(c)| + |b.Get(d)| + |b.Get(Third(c, d))|
  {
  }


  /** ... and keeps the ids unique, so the next drag starts from a board of the same shape. */
  lemma MoveKeepsIdsUnique(b: Board, activeId: string, drop: Drop, writeFails: bool)
    requires WellPlaced(b) && UniqueIds(b)
    ensures UniqueIds(DragEnd(b, activeId, drop, writeFails).columns)
  {
    var r := DragEnd(b, activeId, drop, writeFails);
    if r.write.Some? && !r.crashes {
      var to := DroppedColumn(drop.id).col;
      MoveShape(b, activeId, drop.id, to, writeFails);
      FoundOnce(b, activeId);
      var task := FindTaskAll(b, activeId).value;
      forall id: string
        ensures CountId(All(r.columns), id) <= 1
      {
        MovedCount(b, r.columns, task, to, id);
      }
    }
  }

  /** The id count after a move, one id at a time. */
  lemma MovedCount(b: Board, after: Board, task: Item, to: Column, id: string)
    requires UniqueIds(b) && task.status != to
    requires CountId(b.Get(task.status), task.id) == 1
    requires after.Get(task.status) == RemoveId(b.Get(task.status), task.id)
    requires after.Get(to) == b.Get(to) + [Moved(task, to)]
    requires forall c :: c != task.status && c != to ==> after.Get(c) == b.Get(c)
    ensures CountId(All(after), id) <= 1
  {
    var from := task.status;
    var third := Third(from, to);
    assert CountId(All(b), id) <= 1;
    CountIdByColumns(b, from, to, id);
    CountIdByColumns(after, from, to, id);
    CountIdRemoved(b.Get(from), task.id, id);
    CountIdAppend(b.Get(to), [Moved(task, to)], id);
    CountIdSingle(Moved(task, to), id);
    assert after.Get(third) == b.Get(third);
  }

  /** The column that is neither of two different columns. */
  function Third(c: Column, d: Column): (e: Column)
    requires c != d
    ensures e != c && e != d
  {
    if c != Todo && d != Todo then Todo
    else if c != InProgress && d != InProgress then InProgress
    else Done
  }

  lemma CountIdByColumns(b: Board, c: Column, d: Column, id: string)
    requires c != d
    ensures CountId(All(b), id) == CountId(b.Get(c), id) + CountId(b.Get(d), id) + CountId(b.Get(Third(c, d)), id)
  {
    CountIdAll(b, id);
  }
}
