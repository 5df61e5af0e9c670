/**
 * The board view: the search filter, the grouping of tickets into columns
 * (sorted by their fractional `order`), what a drag-and-drop asks the server
 * to do, and the column rename and delete it sends as board updates.
 */
module KanbanBoard {
  import opened Wrappers
  import opened Text
  import opened KanbanTypes
  import opened Tickets
  import opened BoardsRoute
  import opened Seqs

  /* ---------------------------------------------------------------- search */

  /** The lower-cased query occurs in the lower-cased title, body or id. */
  predicate Matches(t: Ticket, q: string) {
    Contains(Lower(t.title), q) || (t.body.Some? && Contains(Lower(t.body.value), q)) || Contains(Lower(t.id), q)
  }

  function KeepMatching(tickets: seq<Ticket>, q: string): (r: seq<Ticket>)
    ensures forall t :: t in r <==> t in tickets && Matches(t, q)
    ensures |r| <= |tickets|
  {
    if tickets == [] then []
    else (if Matches(tickets[0], q) then [tickets[0]] else []) + KeepMatching(tickets[1..], q)
  }

  /**
   * `filteredTickets`: a query that is blank once trimmed keeps every ticket;
   * otherwise the query is lower-cased but not trimmed.
   */
  function FilteredTickets(tickets: seq<Ticket>, query: string): (r: seq<Ticket>)
    ensures Trim(query) == "" ==> r == tickets
    ensures Trim(query) != "" ==> forall t :: t in r <==> t in tickets && Matches(t, Lower(query))
  {
    if Trim(query) == "" then tickets else KeepMatching(tickets, Lower(query))
  }

  lemma StartsWithSelf(s: string)
    ensures Contains(s, s)
  {
    assert s[..|s|] == s;
  }

  /** Searching for a ticket's own id (or title) always finds it. */
  lemma SearchFindsOwnId(tickets: seq<Ticket>, t: Ticket)
    requires t in tickets
    ensures t in FilteredTickets(tickets, t.id)
    ensures t in FilteredTickets(tickets, t.title)
  {
    StartsWithSelf(Lower(t.id));
    StartsWithSelf(Lower(t.title));
  }

  /* -------------------------------------------------------------- grouping */

  /** `(a.order ?? Infinity) <= (b.order ?? Infinity)`: a ticket without an order sorts last. */
  predicate OrderLe(a: Ticket, b: Ticket) {
    b.order.None? || (a.order.Some? && a.order.value <= b.order.value)
  }

  predicate SortedByOrder(s: seq<Ticket>) {
    forall i, j :: 0 <= i < j < |s| ==> OrderLe(s[i], s[j])
  }

  /** Inserts after every ticket that does not sort after it, which keeps the sort stable. */
  function InsertByOrder(s: seq<Ticket>, x: Ticket): seq<Ticket>
    decreases |s|
  {
    if s == [] then [x]
    else if OrderLe(s[|s| - 1], x) then s + [x]
    else InsertByOrder(s[..|s| - 1], x) + [s[|s| - 1]]
  }

  lemma {:induction false} InsertByOrderMembers(s: seq<Ticket>, x: Ticket)
    ensures multiset(InsertByOrder(s, x)) == multiset(s) + multiset{x}
    decreases |s|
  {
    if s != [] && !OrderLe(s[|s| - 1], x) {
      InsertByOrderMembers(s[..|s| - 1], x);
      assert s == s[..|s| - 1] + [s[|s| - 1]];
    }
  }

  /** A sorted sequence stays sorted when an element no earlier element sorts after is appended. */
  lemma AppendSorted(r: seq<Ticket>, last: Ticket)
    requires SortedByOrder(r)
    requires forall e :: e in r ==> OrderLe(e, last)
    ensures SortedByOrder(r + [last])
  {
    var r' := r + [last];
    forall i, j | 0 <= i < j < |r'| ensures OrderLe(r'[i], r'[j]) {
      if j == |r'| - 1 {
        assert r'[i] in r;
      } else {
        assert r'[i] == r[i] && r'[j] == r[j];
      }
    }
  }

  lemma {:induction false} InsertByOrderSorted(s: seq<Ticket>, x: Ticket)
    requires SortedByOrder(s)
    ensures SortedByOrder(InsertByOrder(s, x))
    ensures multiset(InsertByOrder(s, x)) == multiset(s) + multiset{x}
    decreases |s|
  {
    InsertByOrderMembers(s, x);
    if s == [] {
    } else if OrderLe(s[|s| - 1], x) {
      forall e | e in s ensures OrderLe(e, x) {
        var i :| 0 <= i < |s| && s[i] == e;
        assert i < |s| - 1 ==> OrderLe(s[i], s[|s| - 1]);
      }
      AppendSorted(s, x);
    } else {
      var front := s[..|s| - 1];
      var last := s[|s| - 1];
      InsertByOrderSorted(front, x);
      InsertByOrderMembers(front, x);
      var r := InsertByOrder(front, x);
      forall e | e in r ensures OrderLe(e, last) {
        assert e in multiset(front) + multiset{x};
        if e != x {
          var i :| 0 <= i < |front| && front[i] == e;
          assert s[i] == e;
        }
      }
      AppendSorted(r, last);
    }
  }

  /** `.sort((a, b) => (a.order ?? Infinity) - (b.order ?? Infinity))`, by insertion. */
  function SortByOrder(s: seq<Ticket>): seq<Ticket>
    decreases |s|
  {
    if s == [] then [] else InsertByOrder(SortByOrder(s[..|s| - 1]), s[|s| - 1])
  }

  /** The sort yields a sorted permutation of its input. */
  lemma SortByOrderSpec(s: seq<Ticket>)
    ensures SortedByOrder(SortByOrder(s))
    ensures multiset(SortByOrder(s)) == multiset(s)
  {
    SortByOrderSorted(s);
    SortByOrderPermutes(s);
  }

  lemma {:induction false} SortByOrderSorted(s: seq<Ticket>)
    ensures SortedByOrder(SortByOrder(s))
    decreases |s|
  {
    if s != [] {
      SortByOrderSorted(s[..|s| - 1]);
      InsertByOrderSorted(SortByOrder(s[..|s| - 1]), s[|s| - 1]);
    }
  }

  lemma {:induction false} SortByOrderPermutes(s: seq<Ticket>)
    ensures multiset(SortByOrder(s)) == multiset(s)
    decreases |s|
  {
    if s != [] {
      SortByOrderPermutes(s[..|s| - 1]);
      InsertByOrderMembers(SortByOrder(s[..|s| - 1]), s[|s| - 1]);
      assert s == s[..|s| - 1] + [s[|s| - 1]];
    }
  }

  /** The group of one column: the filtered tickets with that status, by order. */
  function Group(filtered: seq<Ticket>, id: string): seq<Ticket> {
    SortByOrder(WithStatus(filtered, id))
  }

  /** A column's group is sorted and holds exactly the filtered tickets whose status is the column id. */
  lemma GroupSpec(filtered: seq<Ticket>, id: string)
    ensures SortedByOrder(Group(filtered, id))
    ensures forall t :: t in Group(filtered, id) <==> t in filtered && t.status == id
  {
    SortByOrderSpec(WithStatus(filtered, id));
    forall t ensures t in Group(filtered, id) <==> t in WithStatus(filtered, id) {
      assert t in Group(filtered, id) <==> t in multiset(Group(filtered, id));
    }
    var w := WithStatus(filtered, id);
    forall t | t in w ensures t.status == id {
      var i :| 0 <= i < |w| && w[i] == t;
    }
  }

  /** `ticketsByColumn`: a record from each column id to its group, filled column by column. */
  method TicketsByColumn(columns: seq<Column>, filtered: seq<Ticket>) returns (grouped: map<string, seq<Ticket>>)
    ensures forall id :: id in grouped <==> HasColumn(columns, id)
    ensures forall id :: id in grouped ==> grouped[id] == Group(filtered, id)
  {
    grouped := map[];
    for k := 0 to |columns|
      invariant forall id :: id in grouped <==> HasColumn(columns[..k], id)
      invariant forall id :: id in grouped ==> grouped[id] == Group(filtered, id)
    {
      var col := columns[k];
      var columnTickets := SortByOrder(WithStatus(filtered, col.id));
      grouped := grouped[col.id := columnTickets];
      assert columns[..k + 1] == columns[..k] + [col];
      HasColumnSnoc(columns[..k], col);
    }
    assert columns[..|columns|] == columns;
  }

  /** The ids of a list with one more column: the old ids and the new one. */
  lemma HasColumnSnoc(columns: seq<Column>, col: Column)
    ensures forall id :: HasColumn(columns + [col], id) <==> HasColumn(columns, id) || id == col.id
  {
    var r := columns + [col];
    forall id ensures HasColumn(r, id) <==> HasColumn(columns, id) || id == col.id {
      if HasColumn(columns, id) {
        var i :| 0 <= i < |columns| && columns[i].id == id;
        assert r[i].id == id;
      }
      if id == col.id {
        assert r[|columns|].id == id;
      }
      if HasColumn(r, id) {
        var i :| 0 <= i < |r| && r[i].id == id;
        if i < |columns| {
          assert columns[i].id == id;
        }
      }
    }
  }

  /** A ticket whose status is not a column id appears in no group. */
  lemma UnknownStatusUngrouped(columns: seq<Column>, filtered: seq<Ticket>, grouped: map<string, seq<Ticket>>, t: Ticket)
    requires forall id :: id in grouped <==> HasColumn(columns, id)
    requires forall id :: id in grouped ==> grouped[id] == Group(filtered, id)
    requires !HasColumn(columns, t.status)
    ensures forall id :: id in grouped ==> t !in grouped[id]
  {
    forall id | id in grouped ensures t !in grouped[id] {
      GroupSpec(filtered, id);
    }
  }

  /* ----------------------------------------------------------- drag-and-drop */

  const SortableColumnPrefix := "sortable-column-"
  const ColumnPrefix := "column-"

  /** What a drop asks for: nothing, a new column order, a ticket update, or the `TypeError` of a missing neighbour. */
  datatype DragAction =
    | NoAction
    | ReorderColumns(columns: seq<Column>)
    | MoveTicket(id: string, status: string, order: real)
    | TypeError

  /** `arrayMove(s, from, to)`: the element at `from` is taken out and put back at `to`. */
  function ArrayMove<T>(s: seq<T>, from: nat, to: nat): (r: seq<T>)
    requires from < |s| && to < |s|
    ensures |r| == |s| && r[to] == s[from]
    ensures r[..to] + r[to + 1..] == s[..from] + s[from + 1..]
    ensures multiset(r) == multiset(s)
  {
    var rest := s[..from] + s[from + 1..];
    var r := rest[..to] + [s[from]] + rest[to..];
    assert r[..to] == rest[..to] && r[to + 1..] == rest[to..];
    ArrayMoveMultiset(s, from, to);
    r
  }

  lemma ArrayMoveMultiset<T>(s: seq<T>, from: nat, to: nat)
    requires from < |s| && to < |s|
    ensures var rest := s[..from] + s[from + 1..];
      multiset(rest[..to] + [s[from]] + rest[to..]) == multiset(s)
  {
    var rest := s[..from] + s[from + 1..];
    var x := s[from];
    assert rest[..to] + rest[to..] == rest;
    assert s == s[..from] + [x] + s[from + 1..];
    calc {
      multiset(rest[..to] + [x] + rest[to..]);
      multiset(rest[..to]) + multiset([x]) + multiset(rest[to..]);
      multiset(rest[..to]) + multiset(rest[to..]) + multiset([x]);
      multiset(rest) + multiset([x]);
      multiset(s[..from]) + multiset(s[from + 1..]) + multiset([x]);
      multiset(s[..from]) + multiset([x]) + multiset(s[from + 1..]);
      multiset(s);
    }
  }

  /** `findIndex(c => c.id === id)` over columns. */
  function ColumnIndex(columns: seq<Column>, id: string): (i: int)
    ensures -1 <= i < |columns|
    ensures i == -1 <==> !HasColumn(columns, id)
    ensures i >= 0 ==> columns[i].id == id
    ensures i >= 0 ==> forall k :: 0 <= k < i ==> columns[k].id != id
  {
    if columns == [] then -1
    else if columns[0].id == id then 0
    else
      var j := ColumnIndex(columns[1..], id);
      if j == -1 then -1 else j + 1
  }

  /** `findIndex(t => t.id === id)` over tickets. */
  function TicketIndex(ts: seq<Ticket>, id: string): (i: int)
    ensures -1 <= i < |ts|
    ensures i == -1 <==> forall k :: 0 <= k < |ts| ==> ts[k].id != id
    ensures i >= 0 ==> ts[i].id == id
    ensures i >= 0 ==> forall k :: 0 <= k < i ==> ts[k].id != id
  {
    if ts == [] then -1
    else if ts[0].id == id then 0
    else
      var j := TicketIndex(ts[1..], id);
      if j == -1 then -1 else j + 1
  }

  /** `ticketsByColumn[id] || []`. */
  function GroupOf(grouped: map<string, seq<Ticket>>, id: string): seq<Ticket> {
    if id in grouped then grouped[id] else []
  }

  /** `filter(t => t.id !== id)`, keeping the order. */
  function Without(ts: seq<Ticket>, id: string): (r: seq<Ticket>)
    ensures forall t :: t in r <==> t in ts && t.id != id
    ensures |r| <= |ts|
  {
    if ts == [] then []
    else (if ts[0].id == id then [] else [ts[0]]) + Without(ts[1..], id)
  }

  /** One step of the filter: the head is kept or dropped, then the rest is filtered. */
  lemma WithoutCons(x: Ticket, xs: seq<Ticket>, id: string)
    ensures Without([x] + xs, id) == (if x.id == id then [] else [x]) + Without(xs, id)
  {
    assert ([x] + xs)[0] == x && ([x] + xs)[1..] == xs;
  }

  /** The filter distributes over concatenation, so what it keeps stays in the original order. */
  lemma {:induction false} WithoutDistributes(a: seq<Ticket>, b: seq<Ticket>, id: string)
    ensures Without(a + b, id) == Without(a, id) + Without(b, id)
    decreases |a|
  {
    if a == [] {
      assert a + b == b;
    } else {
      var x, xs := a[0], a[1..];
      assert a == [x] + xs;
      assert a + b == [x] + (xs + b);
      WithoutCons(x, xs + b, id);
      WithoutCons(x, xs, id);
      WithoutDistributes(xs, b, id);
      AppendAssoc(if x.id == id then [] else [x], Without(xs, id), Without(b, id));
    }
  }

  /** A ticket that sorts no later than every ticket of a sorted list can head it. */
  lemma SortedCons(x: Ticket, rest: seq<Ticket>)
    requires SortedByOrder(rest)
    requires forall t :: t in rest ==> OrderLe(x, t)
    ensures SortedByOrder([x] + rest)
  {
    var r := [x] + rest;
    forall i, j | 0 <= i < j < |r| ensures OrderLe(r[i], r[j]) {
      assert r[j] == rest[j - 1];
      if i > 0 {
        assert r[i] == rest[i - 1];
      }
    }
  }

  lemma {:induction false} WithoutSorted(ts: seq<Ticket>, id: string)
    requires SortedByOrder(ts)
    ensures SortedByOrder(Without(ts, id))
    decreases |ts|
  {
    if ts != [] {
      var tail := ts[1..];
      assert SortedByOrder(tail) by {
        forall i, j | 0 <= i < j < |tail| ensures OrderLe(tail[i], tail[j]) {
          assert tail[i] == ts[i + 1] && tail[j] == ts[j + 1];
        }
      }
      WithoutSorted(tail, id);
      var rest := Without(tail, id);
      if ts[0].id != id {
        forall t | t in rest ensures OrderLe(ts[0], t) {
          var k :| 0 <= k < |tail| && tail[k] == t;
          assert ts[k + 1] == t;
        }
        SortedCons(ts[0], rest);
      }
      assert Without(ts, id) == (if ts[0].id == id then [] else [ts[0]]) + rest;
    }
  }

  /** The tickets the dragged ticket is placed among: the target column's group, without itself. */
  function Others(grouped: map<string, seq<Ticket>>, ticket: Ticket, column: string): seq<Ticket> {
    if ticket.status == column then Without(GroupOf(grouped, column), ticket.id) else GroupOf(grouped, column)
  }

  /** The order a ticket dropped at `index` among `other` gets; `None` is the `TypeError` of a negative index. */
  function NewOrder(other: seq<Ticket>, index: int): Option<real> {
    if index >= |other| then
      var lastOrder := if |other| > 0 then other[|other| - 1].order.GetOr((|other| - 1) as real) else -1.0;
      Some(lastOrder + 1.0)
    else if index == 0 then
      var firstOrder := if |other| > 0 then other[0].order.GetOr(0.0) else 1.0;
      Some(firstOrder - 1.0)
    else if index < 0 then None
    else
      var prevOrder := other[index - 1].order.GetOr((index - 1) as real);
      var nextOrder := other[index].order.GetOr(index as real);
      Some((prevOrder + nextOrder) / 2.0)
  }

  /** Appending: 0 in an empty column, and after every ordered ticket when the last one has an order. */
  lemma NewOrderAppends(other: seq<Ticket>, index: int)
    requires SortedByOrder(other) && index >= |other|
    ensures NewOrder(other, index).Some?
    ensures other == [] ==> NewOrder(other, index) == Some(0.0)
    ensures other != [] && other[|other| - 1].order.Some? ==>
      forall u :: u in other && u.order.Some? ==> u.order.value < NewOrder(other, index).value
  {
    if other != [] && other[|other| - 1].order.Some? {
      forall u | u in other && u.order.Some?
        ensures u.order.value < NewOrder(other, index).value
      {
        var i :| 0 <= i < |other| && other[i] == u;
        assert i < |other| - 1 ==> OrderLe(other[i], other[|other| - 1]);
      }
    }
  }

  /** Inserting first: before every ordered ticket of the column. */
  lemma NewOrderPrepends(other: seq<Ticket>)
    requires SortedByOrder(other) && other != []
    ensures NewOrder(other, 0).Some?
    ensures forall u :: u in other && u.order.Some? ==> NewOrder(other, 0).value < u.order.value
  {
    forall u | u in other && u.order.Some?
      ensures NewOrder(other, 0).value < u.order.value
    {
      var i :| 0 <= i < |other| && other[i] == u;
      assert i > 0 ==> OrderLe(other[0], other[i]);
    }
  }

  /** Inserting between two ordered neighbours: strictly between them when they differ, and equal to both when they do not. */
  lemma NewOrderBetween(other: seq<Ticket>, index: int)
    requires 0 < index < |other|
    requires other[index - 1].order.Some? && other[index].order.Some?
    ensures NewOrder(other, index).Some?
    ensures var prev := other[index - 1].order.value; var next := other[index].order.value;
      && (prev < next ==> prev < NewOrder(other, index).value < next)
      && (prev == next ==> NewOrder(other, index).value == prev)
  {
  }

  /** The drop target: a column's end, or the index of the ticket dropped on within its column's group. */
  function DropTarget(tickets: seq<Ticket>, grouped: map<string, seq<Ticket>>, over: string): Option<(string, int)> {
    if StartsWith(over, ColumnPrefix) then
      var column := over[|ColumnPrefix|..];
      Some((column, |GroupOf(grouped, column)|))
    else
      var target := FindById(tickets, over);
      if target.None? then None
      else Some((target.value.status, TicketIndex(GroupOf(grouped, target.value.status), over)))
  }

  /** `handleDragEnd` as a value: what the drop of `activeId` over `overId` asks for. */
  function DragEndSpec(columns: seq<Column>, tickets: seq<Ticket>, grouped: map<string, seq<Ticket>>,
                       activeId: string, overId: Option<string>): DragAction
  {
    if overId.None? then NoAction
    else if StartsWith(activeId, SortableColumnPrefix) && StartsWith(overId.value, SortableColumnPrefix) then
      var a := activeId[|SortableColumnPrefix|..];
      var o := overId.value[|SortableColumnPrefix|..];
      if a == o then NoAction
      else
        var ai := ColumnIndex(columns, a);
        var oi := ColumnIndex(columns, o);
        if ai == -1 || oi == -1 then NoAction else ReorderColumns(ArrayMove(columns, ai, oi))
    else
      var ticket := FindById(tickets, activeId);
      var target := DropTarget(tickets, grouped, overId.value);
      if ticket.None? || target.None? || target.value.0 == "" then NoAction
      else
        var column := target.value.0;
        var order := NewOrder(Others(grouped, ticket.value, column), target.value.1);
        if order.None? then TypeError
        else if ticket.value.status != column || ticket.value.order != Some(order.value) then
          MoveTicket(activeId, column, order.value)
        else NoAction
  }

  /** `handleDragEnd` as the component writes it, with its `let` variables. */
  method HandleDragEnd(columns: seq<Column>, tickets: seq<Ticket>, grouped: map<string, seq<Ticket>>,
                       activeId: string, overId: Option<string>) returns (action: DragAction)
    ensures action == DragEndSpec(columns, tickets, grouped, activeId, overId)
  {
    if overId.None? {
      return NoAction;
    }
    var over := overId.value;
    if StartsWith(activeId, SortableColumnPrefix) && StartsWith(over, SortableColumnPrefix) {
      var activeColId := activeId[|SortableColumnPrefix|..];
      var overColId := over[|SortableColumnPrefix|..];
      action := NoAction;
      if activeColId != overColId {
        var activeIndex := ColumnIndex(columns, activeColId);
        var overIndex := ColumnIndex(columns, overColId);
        if activeIndex != -1 && overIndex != -1 {
          action := ReorderColumns(ArrayMove(columns, activeIndex, overIndex));
        }
      }
      return;
    }
    var ticket := FindById(tickets, activeId);
    if ticket.None? {
      return NoAction;
    }
    var targetColumnId: Option<string> := None;
    var targetIndex: int := 0;
    if StartsWith(over, ColumnPrefix) {
      targetColumnId := Some(over[|ColumnPrefix|..]);
      targetIndex := |GroupOf(grouped, targetColumnId.value)|;
    } else {
      var targetTicket := FindById(tickets, over);
      if targetTicket.Some? {
        targetColumnId := Some(targetTicket.value.status);
        targetIndex := TicketIndex(GroupOf(grouped, targetColumnId.value), over);
      }
    }
    if targetColumnId.None? || targetColumnId.value == "" {
      return NoAction;
    }
    var column := targetColumnId.value;
    var columnTickets := GroupOf(grouped, column);
    var otherTickets := if ticket.value.status == column then Without(columnTickets, activeId) else columnTickets;
    var newOrder := ComputeNewOrder(otherTickets, targetIndex);
    if newOrder.None? {
      return TypeError;
    }
    assert DropTarget(tickets, grouped, over) == Some((column, targetIndex));
    assert otherTickets == Others(grouped, ticket.value, column);
    if ticket.value.status != column || ticket.value.order != newOrder {
      return MoveTicket(activeId, column, newOrder.value);
    }
    return NoAction;
  }

  /** The `newOrder` computation of `handleDragEnd`; `None` where reading a missing neighbour throws. */
  method ComputeNewOrder(otherTickets: seq<Ticket>, targetIndex: int) returns (newOrder: Option<real>)
    ensures newOrder == NewOrder(otherTickets, targetIndex)
  {
    if targetIndex >= |otherTickets| {
      var lastOrder := if |otherTickets| > 0 then otherTickets[|otherTickets| - 1].order.GetOr((|otherTickets| - 1) as real) else -1.0;
      newOrder := Some(lastOrder + 1.0);
    } else if targetIndex == 0 {
      var firstOrder := if |otherTickets| > 0 then otherTickets[0].order.GetOr(0.0) else 1.0;
      newOrder := Some(firstOrder - 1.0);
    } else if targetIndex < 0 {
      newOrder := None;
    } else {
      var prevOrder := otherTickets[targetIndex - 1].order.GetOr((targetIndex - 1) as real);
      var nextOrder := otherTickets[targetIndex].order.GetOr(targetIndex as real);
      newOrder := Some((prevOrder + nextOrder) / 2.0);
    }
  }

  /** A column drag asks for a reorder exactly when the two ids differ and both are columns, and the reorder is a move. */
  lemma ColumnDragIsMove(columns: seq<Column>, tickets: seq<Ticket>, grouped: map<string, seq<Ticket>>, a: string, o: string)
    ensures var action := DragEndSpec(columns, tickets, grouped, SortableColumnPrefix + a, Some(SortableColumnPrefix + o));
      && (action.ReorderColumns? <==> a != o && HasColumn(columns, a) && HasColumn(columns, o))
      && (action.ReorderColumns? ==>
            && multiset(action.columns) == multiset(columns)
            && action.columns[ColumnIndex(columns, o)] == columns[ColumnIndex(columns, a)])
      && (!action.ReorderColumns? ==> action == NoAction)
  {
    var p := SortableColumnPrefix;
    assert (p + a)[..|p|] == p && (p + a)[|p|..] == a;
    assert (p + o)[..|p|] == p && (p + o)[|p|..] == o;
  }

  /** A ticket update is asked for only when the status or the order actually changes. */
  lemma MoveOnlyWhenChanged(columns: seq<Column>, tickets: seq<Ticket>, grouped: map<string, seq<Ticket>>,
                            activeId: string, overId: Option<string>)
    requires DragEndSpec(columns, tickets, grouped, activeId, overId).MoveTicket?
    ensures var action := DragEndSpec(columns, tickets, grouped, activeId, overId);
      var t := FindById(tickets, activeId);
      && action.id == activeId && t.Some? && action.status != ""
      && (t.value.status != action.status || t.value.order != Some(action.order))
  {
  }

  /**
   * A ticket dropped on a column goes to that column's end: order 0 in an
   * empty column, and after every ordered ticket when the last one has an order.
   */
  lemma DropOnColumnGoesLast(columns: seq<Column>, tickets: seq<Ticket>, grouped: map<string, seq<Ticket>>, activeId: string, column: string)
    requires column != "" && SortedByOrder(GroupOf(grouped, column))
    requires FindById(tickets, activeId).Some?
    ensures var action := DragEndSpec(columns, tickets, grouped, activeId, Some(ColumnPrefix + column));
      var others := Others(grouped, FindById(tickets, activeId).value, column);
      && (action.MoveTicket? || action == NoAction)
      && (action.MoveTicket? ==> action.status == column)
      && (action.MoveTicket? && others == [] ==> action.order == 0.0)
      && (action.MoveTicket? && others != [] && others[|others| - 1].order.Some? ==>
            forall u :: u in others && u.order.Some? ==> u.order.value < action.order)
  {
    var over := ColumnPrefix + column;
    assert over[..|ColumnPrefix|] == ColumnPrefix && over[|ColumnPrefix|..] == column;
    assert !StartsWith(over, SortableColumnPrefix) by { assert over[0] != SortableColumnPrefix[0]; }
    assert DropTarget(tickets, grouped, over) == Some((column, |GroupOf(grouped, column)|));
    var t := FindById(tickets, activeId).value;
    var others := Others(grouped, t, column);
    if t.status == column {
      WithoutSorted(GroupOf(grouped, column), t.id);
    }
    NewOrderAppends(others, |GroupOf(grouped, column)|);
    var order := NewOrder(others, |GroupOf(grouped, column)|).value;
    var action := DragEndSpec(columns, tickets, grouped, activeId, Some(over));
    assert action == if t.status != column || t.order != Some(order) then MoveTicket(activeId, column, order) else NoAction;
  }

  /** A drop on a ticket that is shown in its column never hits the `TypeError`. */
  lemma DropOnShownTicketSucceeds(columns: seq<Column>, tickets: seq<Ticket>, grouped: map<string, seq<Ticket>>, activeId: string, over: string)
    requires !StartsWith(over, ColumnPrefix) && !StartsWith(over, SortableColumnPrefix)
    requires FindById(tickets, over).Some?
    requires FindById(tickets, over).value in GroupOf(grouped, FindById(tickets, over).value.status)
    ensures DragEndSpec(columns, tickets, grouped, activeId, Some(over)) != TypeError
  {
    var target := FindById(tickets, over).value;
    var g := GroupOf(grouped, target.status);
    var k :| 0 <= k < |g| && g[k] == target;
    var index := TicketIndex(g, over);
    assert index >= 0;
    assert DropTarget(tickets, grouped, over) == Some((target.status, index));
    var ticket := FindById(tickets, activeId);
    if ticket.Some? {
      var others := Others(grouped, ticket.value, target.status);
      assert NewOrder(others, index).Some?;
    }
  }

  /* --------------------------------------------------------- column changes */

  /** `handleRenameColumn`: the columns with that id take the new name; everything else stays. */
  function RenameColumn(columns: seq<Column>, id: string, name: string): (r: seq<Column>)
    ensures |r| == |columns|
    ensures forall i :: 0 <= i < |r| ==> r[i].id == columns[i].id
    ensures forall i :: 0 <= i < |r| ==> r[i].name == (if columns[i].id == id then name else columns[i].name)
  {
    seq(|columns|, i requires 0 <= i < |columns| => if columns[i].id == id then columns[i].(name := name) else columns[i])
  }

  /** Renaming twice is renaming once. */
  lemma RenameIdempotent(columns: seq<Column>, id: string, name: string)
    ensures RenameColumn(RenameColumn(columns, id, name), id, name) == RenameColumn(columns, id, name)
  {
  }

  /** A rename sent to the server removes no column, so it never moves a ticket. */
  lemma RenameRemovesNothing(columns: seq<Column>, id: string, name: string)
    ensures RemovedColumns(columns, RenameColumn(columns, id, name)) == []
  {
    var r := RenameColumn(columns, id, name);
    forall c | c in columns ensures HasColumn(r, c.id) {
      var i :| 0 <= i < |columns| && columns[i] == c;
      assert r[i].id == c.id;
    }
    NothingRemoved(columns, r);
  }

  lemma {:induction false} NothingRemoved(existing: seq<Column>, columns: seq<Column>)
    requires forall c :: c in existing ==> HasColumn(columns, c.id)
    ensures RemovedColumns(existing, columns) == []
    decreases |existing|
  {
    if existing != [] {
      assert existing[0] in existing;
      NothingRemoved(existing[1..], columns);
    }
  }

  /** `handleDeleteColumn`: the columns with that id are dropped, the rest keep their order. */
  function WithoutColumn(columns: seq<Column>, id: string): (r: seq<Column>)
    ensures forall c :: c in r <==> c in columns && c.id != id
    ensures |r| <= |columns|
  {
    if columns == [] then []
    else (if columns[0].id == id then [] else [columns[0]]) + WithoutColumn(columns[1..], id)
  }

  lemma {:induction false} WithoutColumnHead(columns: seq<Column>, id: string)
    requires WithoutColumn(columns, id) != []
    ensures WithoutColumn(columns, id)[0] in columns
  {
  }

  /**
   * A delete sent to the server removes exactly the deleted id's columns, and
   * the new first column is an existing one, so re-homing to it cannot be refused
   * for want of the column.
   */
  lemma DeleteRemovesExactly(columns: seq<Column>, id: string)
    ensures forall c :: c in RemovedColumns(columns, WithoutColumn(columns, id)) <==> c in columns && c.id == id
    ensures WithoutColumn(columns, id) != [] ==> HasColumn(columns, WithoutColumn(columns, id)[0].id)
  {
    var r := WithoutColumn(columns, id);
    forall c | c in columns
      ensures HasColumn(r, c.id) <==> c.id != id
    {
      if HasColumn(r, c.id) {
        var i :| 0 <= i < |r| && r[i].id == c.id;
        assert r[i] in columns;
      }
      if c.id != id {
        assert c in r;
        var i :| 0 <= i < |r| && r[i] == c;
      }
    }
    if r != [] {
      var i :| 0 <= i < |columns| && columns[i] == r[0];
    }
  }
}
