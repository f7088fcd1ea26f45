/** The status-list allocator service: stored lists per organisation and issuer, rotated
    when full. Each method body is one database transaction, taken as one atomic step. */
module StatusLists {
  import opened Outcomes
  import opened StatusBitmap

  const DEFAULT_STATUS_LIST_SIZE := 131072
  const IDS_REQUIRED := "orgId and issuerDid are required for status list allocation"
  const LIST_FULL := "Retry allocation, list full"

  datatype ListRow = ListRow(
    orgId: string,
    issuerDid: string,
    listSize: nat,
    allocatedCount: nat,
    bitmap: seq<bv8>,
    isActive: bool)

  type Table = map<string, ListRow>

  function SizeOf(listSize: Option<nat>): nat {
    if listSize.Some? && listSize.value != 0 then listSize.value else DEFAULT_STATUS_LIST_SIZE
  }

  predicate ActiveFor(row: ListRow, orgId: string, issuerDid: string) {
    row.isActive && row.orgId == orgId && row.issuerDid == issuerDid
  }

  predicate Full(row: ListRow) {
    row.allocatedCount >= row.listSize
  }

  function NewRow(orgId: string, issuerDid: string, size: nat): ListRow {
    ListRow(orgId, issuerDid, size, 0, seq(Bytes(size), _ => 0), true)
  }

  ghost predicate RowOk(row: ListRow) {
    && WellFormed(row.bitmap, row.listSize)
    && row.allocatedCount == |TakenBelow(row.bitmap, row.listSize)|
  }

  /** Stored counts are population counts within the list size, and an organisation's
      issuer has at most one active list. */
  ghost predicate TableOk(t: Table) {
    && (forall l :: l in t ==> RowOk(t[l]))
    && (forall l, m :: (l in t && m in t && t[l].isActive && ActiveFor(t[m], t[l].orgId, t[l].issuerDid)) ==> l == m)
  }

  ghost predicate Outstanding(t: Table, listId: string, index: int) {
    listId in t && 0 <= index < t[listId].listSize && |t[listId].bitmap| == Bytes(t[listId].listSize)
    && Bit(t[listId].bitmap, index)
  }

  /** The lists as they stand when the index is drawn: the active list if it has room, or
      a new active list with the full one switched off. */
  ghost predicate Prepared(t: Table, t': Table, orgId: string, issuerDid: string, size: nat, listId: string) {
    if listId in t then
      t' == t && ActiveFor(t[listId], orgId, issuerDid) && !Full(t[listId])
    else
      && (forall l :: l in t && ActiveFor(t[l], orgId, issuerDid) ==> Full(t[l]))
      && t'.Keys == t.Keys + {listId}
      && t'[listId] == NewRow(orgId, issuerDid, size)
      && (forall l :: l in t ==>
            t'[l] == if ActiveFor(t[l], orgId, issuerDid) then t[l].(isActive := false) else t[l])
  }

  function Marked(row: ListRow, index: nat): ListRow
    requires index < 8 * |row.bitmap|
  {
    row.(bitmap := WithBit(row.bitmap, index), allocatedCount := row.allocatedCount + 1)
  }

  function Unmarked(row: ListRow, index: nat): ListRow
    requires index < 8 * |row.bitmap|
  {
    if Bit(row.bitmap, index) && row.allocatedCount > 0
    then row.(bitmap := WithoutBit(row.bitmap, index), allocatedCount := row.allocatedCount - 1)
    else row
  }

  /** One committed allocation. */
  ghost predicate Allocates(t: Table, t': Table, orgId: string, issuerDid: string, size: nat, listId: string, index: nat) {
    exists p: Table ::
      && Prepared(t, p, orgId, issuerDid, size, listId)
      && listId in p && index < p[listId].listSize && index < 8 * |p[listId].bitmap|
      && !Bit(p[listId].bitmap, index)
      && t' == p[listId := Marked(p[listId], index)]
  }

  /** One committed release; an unknown list or an index out of range changes nothing. */
  function Released(t: Table, listId: string, index: int): Table {
    if listId in t && 0 <= index < t[listId].listSize && index < 8 * |t[listId].bitmap|
    then t[listId := Unmarked(t[listId], index)]
    else t
  }

  lemma NewRowOk(orgId: string, issuerDid: string, size: nat)
    ensures RowOk(NewRow(orgId, issuerDid, size))
    ensures forall i :: 0 <= i < size ==> !Bit(NewRow(orgId, issuerDid, size).bitmap, i)
  {
    var s := NewRow(orgId, issuerDid, size).bitmap;
    forall i | 0 <= i < 8 * |s|
      ensures !Bit(s, i)
    {
      ZeroByte(i % 8);
    }
    assert TakenBelow(s, size) == {};
  }

  lemma PreparedOk(t: Table, p: Table, orgId: string, issuerDid: string, size: nat, listId: string)
    requires TableOk(t) && size > 0 && Prepared(t, p, orgId, issuerDid, size, listId)
    ensures TableOk(p) && listId in p && !Full(p[listId])
    ensures forall l, i :: Outstanding(p, l, i) <==> Outstanding(t, l, i)
  {
    hide WellFormed, Bit;
    NewRowOk(orgId, issuerDid, size);
    forall l | l in p
      ensures RowOk(p[l])
    {
      assert l in t ==> RowOk(t[l]);
    }
  }

  lemma MarkedOk(row: ListRow, index: nat)
    requires RowOk(row) && index < row.listSize && !Bit(row.bitmap, index)
    ensures RowOk(Marked(row, index))
    ensures forall i :: 0 <= i < row.listSize ==>
              (Bit(Marked(row, index).bitmap, i) <==> Bit(row.bitmap, i) || i == index)
  {
    UpdatesTaken(row.bitmap, index, row.listSize);
    assert index !in TakenBelow(row.bitmap, row.listSize);
    forall i | 0 <= i < row.listSize
      ensures Bit(Marked(row, index).bitmap, i) <==> Bit(row.bitmap, i) || i == index
    {
      BitUpdates(row.bitmap, index, i);
    }
  }

  lemma UnmarkedOk(row: ListRow, index: nat)
    requires RowOk(row) && index < row.listSize
    ensures RowOk(Unmarked(row, index))
    ensures forall i :: 0 <= i < row.listSize ==>
              (Bit(Unmarked(row, index).bitmap, i) <==> Bit(row.bitmap, i) && i != index)
  {
    UpdatesTaken(row.bitmap, index, row.listSize);
    if Bit(row.bitmap, index) {
      assert index in TakenBelow(row.bitmap, row.listSize);
    }
    forall i | 0 <= i < row.listSize
      ensures Bit(WithoutBit(row.bitmap, index), i) <==> Bit(row.bitmap, i) && i != index
    {
      BitUpdates(row.bitmap, index, i);
    }
  }

  /** A table keeps its invariant when one row is replaced by a good row of the same list. */
  lemma ReplaceOk(t: Table, listId: string, row: ListRow)
    requires TableOk(t) && listId in t && RowOk(row)
    requires row.orgId == t[listId].orgId && row.issuerDid == t[listId].issuerDid && row.isActive == t[listId].isActive
    ensures TableOk(t[listId := row])
  {
    hide RowOk;
  }

  /** An allocation hands out one pair that was not outstanding, and nothing else changes. */
  lemma AllocationRefines(t: Table, t': Table, orgId: string, issuerDid: string, size: nat, listId: string, index: nat)
    requires TableOk(t) && size > 0 && index >= 0 && Allocates(t, t', orgId, issuerDid, size, listId, index)
    ensures TableOk(t')
    ensures !Outstanding(t, listId, index)
    ensures forall l, i :: Outstanding(t', l, i) <==> Outstanding(t, l, i) || (l == listId && i == index)
  {
    hide Marked, Prepared, WellFormed, Bit, WithBit;
    var p: Table :| Prepared(t, p, orgId, issuerDid, size, listId)
                    && listId in p && index < p[listId].listSize && index < 8 * |p[listId].bitmap|
                    && !Bit(p[listId].bitmap, index)
                    && t' == p[listId := Marked(p[listId], index)];
    PreparedOk(t, p, orgId, issuerDid, size, listId);
    MarkedOk(p[listId], index);
    MarkedSame(p[listId], index);
    ReplaceOk(p, listId, Marked(p[listId], index));
    assert !Outstanding(p, listId, index);
    assert |p[listId].bitmap| == Bytes(p[listId].listSize) by { RowLength(p[listId]); }
  }

  /** The issuer's list that indices are drawn from. */
  predicate DrawnFrom(row: ListRow, orgId: string, issuerDid: string) {
    row.isActive && row.orgId == orgId && row.issuerDid == issuerDid
  }

  /** An allocation draws from the issuer's active list exactly if an index of it is left.
      Otherwise it opens a list of the asked size and switches the full one off. Every other
      list, and all but bitmap and count of the drawn one, is as it was. */
  lemma AllocationRotates(t: Table, t': Table, orgId: string, issuerDid: string, size: nat, listId: string, index: nat)
    requires TableOk(t) && size > 0 && Allocates(t, t', orgId, issuerDid, size, listId, index)
    ensures listId in t <==>
              exists l, i: int :: l in t && DrawnFrom(t[l], orgId, issuerDid) && 0 <= i < t[l].listSize && !Outstanding(t, l, i)
    ensures t'.Keys == t.Keys + {listId} && DrawnFrom(t'[listId], orgId, issuerDid)
    ensures t'[listId].listSize == if listId in t then t[listId].listSize else size
    ensures forall l :: l in t && l != listId ==>
              t'[l] == if listId !in t && DrawnFrom(t[l], orgId, issuerDid) then t[l].(isActive := false) else t[l]
  {
    hide Bit, WithBit, WellFormed, RowOk;
    var p: Table :| Prepared(t, p, orgId, issuerDid, size, listId)
                    && listId in p && index < p[listId].listSize && index < 8 * |p[listId].bitmap|
                    && !Bit(p[listId].bitmap, index)
                    && t' == p[listId := Marked(p[listId], index)];
    assert forall row: ListRow :: ActiveFor(row, orgId, issuerDid) <==> DrawnFrom(row, orgId, issuerDid);
    forall l | l in t
      ensures !Full(t[l]) <==> exists i: int :: 0 <= i < t[l].listSize && !Outstanding(t, l, i)
    {
      RoomLeft(t, l);
    }
    MarkedSame(p[listId], index);
  }

  /** A list has room exactly if one of its indices is not outstanding. */
  lemma RoomLeft(t: Table, l: string)
    requires TableOk(t) && l in t
    ensures t[l].allocatedCount < t[l].listSize <==> exists i: int :: 0 <= i < t[l].listSize && !Outstanding(t, l, i)
  {
    hide Bit;
    var row := t[l];
    assert RowOk(row);
    WellFormedCount(row.bitmap, row.listSize);
    assert forall i: int :: 0 <= i < row.listSize ==> (Outstanding(t, l, i) <==> Bit(row.bitmap, i));
  }

  lemma RowLength(row: ListRow)
    requires RowOk(row)
    ensures |row.bitmap| == Bytes(row.listSize)
  {
  }

  lemma MarkedSame(row: ListRow, index: nat)
    requires index < 8 * |row.bitmap|
    ensures var m := Marked(row, index);
            && m.orgId == row.orgId && m.issuerDid == row.issuerDid && m.isActive == row.isActive
            && m.listSize == row.listSize && |m.bitmap| == |row.bitmap|
    ensures var u := Unmarked(row, index);
            && u.orgId == row.orgId && u.issuerDid == row.issuerDid && u.isActive == row.isActive
            && u.listSize == row.listSize && |u.bitmap| == |row.bitmap|
  {
    UpdateLength(row.bitmap, index);
  }

  /** A release takes exactly its own pair out of the outstanding ones. */
  lemma ReleaseRefines(t: Table, listId: string, index: int)
    requires TableOk(t)
    ensures TableOk(Released(t, listId, index))
    ensures forall l, i :: Outstanding(Released(t, listId, index), l, i) <==>
                           Outstanding(t, l, i) && !(l == listId && i == index)
  {
    hide Unmarked, WellFormed, Bit;
    if listId in t && 0 <= index < t[listId].listSize {
      assert |t[listId].bitmap| == Bytes(t[listId].listSize) by { WellFormedLength(t[listId].bitmap, t[listId].listSize); }
      UnmarkedOk(t[listId], index);
      MarkedSame(t[listId], index);
      ReplaceOk(t, listId, Unmarked(t[listId], index));
    }
  }

  class StatusListAllocatorService {
    var lists: Table

    constructor ()
      ensures lists == map[] && TableOk(lists)
    {
      lists := map[];
    }

    /** Finds some active list of the issuer, as the unordered query does. */
    method FindActive(orgId: string, issuerDid: string) returns (active: Option<string>)
      ensures active.Some? ==> active.value in lists && ActiveFor(lists[active.value], orgId, issuerDid)
      ensures active.None? ==> forall l :: l in lists ==> !ActiveFor(lists[l], orgId, issuerDid)
    {
      if l :| l in lists && ActiveFor(lists[l], orgId, issuerDid) {
        return Some(l);
      }
      active := None;
    }

    /** `freshId` stands for the random UUID of a list that may have to be created. The
        error for a full list is never returned. */
    method Allocate(orgId: string, issuerDid: string, listSize: Option<nat>, freshId: string)
      returns (r: Result<(string, nat), string>)
      requires TableOk(lists) && freshId !in lists
      modifies this
      ensures TableOk(lists)
      ensures r.Err? <==> orgId == "" || issuerDid == ""
      ensures r.Err? ==> r.error == IDS_REQUIRED && lists == old(lists)
      ensures r.Ok? ==> Allocates(old(lists), lists, orgId, issuerDid, SizeOf(listSize), r.value.0, r.value.1)
      ensures r.Ok? ==> r.value.0 in old(lists) || r.value.0 == freshId
      ensures r.Ok? ==> r.value.0 in lists
      ensures r.Ok? && r.value.0 == freshId ==>
                lists[freshId].listSize == (if listSize == None || listSize == Some(0) then 131072 else listSize.value)
    {
      if orgId == "" || issuerDid == "" {
        return Err(IDS_REQUIRED);
      }
      ghost var before := lists;
      var active := FindActive(orgId, issuerDid);
      var listId: string;
      if active.Some? && !Full(lists[active.value]) {
        listId := active.value;
      } else {
        if active.Some? {
          lists := lists[active.value := lists[active.value].(isActive := false)];
        }
        lists := lists[freshId := NewRow(orgId, issuerDid, SizeOf(listSize))];
        listId := freshId;
      }
      assert Prepared(before, lists, orgId, issuerDid, SizeOf(listSize), listId);
      PreparedOk(before, lists, orgId, issuerDid, SizeOf(listSize), listId);
      r := Draw(listId);
      if r.Ok? {
        AllocationRotates(before, lists, orgId, issuerDid, SizeOf(listSize), r.value.0, r.value.1);
        AllocationRefines(before, lists, orgId, issuerDid, SizeOf(listSize), r.value.0, r.value.1);
      }
    }

    /** Reloads the list's bitmap, draws an index and stores the result. */
    method Draw(listId: string) returns (r: Result<(string, nat), string>)
      requires listId in lists && RowOk(lists[listId]) && !Full(lists[listId])
      modifies this
      ensures r.Ok? && r.value.0 == listId
      ensures var row := old(lists)[listId];
              && r.value.1 < row.listSize && r.value.1 < 8 * |row.bitmap| && !Bit(row.bitmap, r.value.1)
              && lists == old(lists)[listId := Marked(row, r.value.1)]
    {
      hide Bit, WithBit, Bytes;
      var row := lists[listId];
      assert |row.bitmap| == Bytes(row.listSize) && WellFormed(row.bitmap, row.listSize);
      Spacious(row.listSize);
      var allocator := new RandomBitmapIndexAllocator(row.listSize, Some(row.bitmap));
      var drawn := allocator.Allocate();
      if drawn.Err? {
        assert false;  // the list has room, so the retry error is never reached
        return Err(LIST_FULL);
      }
      var bytes := allocator.Export();
      var count := allocator.allocatedCount;
      StoredDraw(row, drawn.value, bytes, count);
      lists := lists[listId := row.(bitmap := bytes, allocatedCount := count)];
      r := Ok((listId, drawn.value));
    }

    method Release(listId: string, index: int) returns (r: Result<(), string>)
      requires TableOk(lists)
      modifies this
      ensures TableOk(lists) && lists == Released(old(lists), listId, index)
      ensures r.Err? <==> listId in old(lists) && (index < 0 || index >= old(lists)[listId].listSize)
    {
      ReleaseRefines(lists, listId, index);
      if listId !in lists {
        return Ok(());
      }
      var row := lists[listId];
      assert RowOk(row);
      var allocator := new RandomBitmapIndexAllocator(row.listSize, Some(row.bitmap));
      var released := allocator.Release(index);
      if released.Err? {
        return Err(released.error);
      }
      var bytes := allocator.Export();
      var count := allocator.allocatedCount;
      StoredRelease(row, index, released.value, bytes, count);
      lists := lists[listId := row.(bitmap := bytes, allocatedCount := count)];
      r := Ok(());
    }
  }

  lemma Spacious(size: nat)
    ensures size <= 8 * Bytes(size)
  {
  }

  lemma StoredDraw(row: ListRow, index: nat, bytes: seq<bv8>, count: nat)
    requires RowOk(row) && index < row.listSize && index !in TakenBelow(row.bitmap, row.listSize)
    requires index < 8 * |row.bitmap| && bytes == WithBit(row.bitmap, index)
    requires WellFormed(bytes, row.listSize) && count == |TakenBelow(bytes, row.listSize)|
    ensures !Bit(row.bitmap, index)
    ensures row.(bitmap := bytes, allocatedCount := count) == Marked(row, index)
  {
    hide WithBit, Bit;
    UpdatesTaken(row.bitmap, index, row.listSize);
  }

  lemma StoredRelease(row: ListRow, index: nat, wasSet: bool, bytes: seq<bv8>, count: nat)
    requires RowOk(row) && index < row.listSize
    requires wasSet == (index in TakenBelow(row.bitmap, row.listSize))
    requires bytes == if wasSet then WithoutBit(row.bitmap, index) else row.bitmap
    requires WellFormed(bytes, row.listSize) && count == |TakenBelow(bytes, row.listSize)|
    ensures row.(bitmap := bytes, allocatedCount := count) == Unmarked(row, index)
  {
    hide WithoutBit, Bit;
    UpdatesTaken(row.bitmap, index, row.listSize);
    assert wasSet ==> TakenBelow(bytes, row.listSize) == TakenBelow(row.bitmap, row.listSize) - {index};
  }

  // ---------------------------------------------------------------------------------
  // Any sequence of transactions

  datatype Event =
    | Allocation(orgId: string, issuerDid: string, size: nat, listId: string, index: int)
    | Free(listId: string, index: int)

  ghost predicate Step(t: Table, e: Event, t': Table) {
    match e
    case Allocation(orgId, issuerDid, size, listId, index) =>
      size > 0 && index >= 0 && Allocates(t, t', orgId, issuerDid, size, listId, index)
    case Free(listId, index) => t' == Released(t, listId, index)
  }

  ghost predicate IsRun(tables: seq<Table>, events: seq<Event>) {
    && |tables| == |events| + 1
    && TableOk(tables[0])
    && forall i :: 0 <= i < |events| ==> Step(tables[i], events[i], tables[i + 1])
  }

  ghost predicate IsFree(e: Event, listId: string, index: int) {
    e.Free? && e.listId == listId && e.index == index
  }

  lemma StepKeeps(t: Table, e: Event, t': Table)
    requires TableOk(t) && Step(t, e, t')
    ensures TableOk(t')
    ensures forall l, i :: Outstanding(t, l, i) && !IsFree(e, l, i) ==> Outstanding(t', l, i)
    ensures e.Allocation? ==> !Outstanding(t, e.listId, e.index) && Outstanding(t', e.listId, e.index)
  {
    hide Allocates, Released, TableOk, Outstanding;
    match e {
      case Allocation(orgId, issuerDid, size, listId, index) =>
        AllocationRefines(t, t', orgId, issuerDid, size, listId, index);
      case Free(listId, index) => ReleaseRefines(t, listId, index);
    }
  }

  lemma {:induction false} RunKeeps(tables: seq<Table>, events: seq<Event>, n: nat)
    requires IsRun(tables, events) && n < |tables|
    ensures TableOk(tables[n])
  {
    hide TableOk, Step;
    if n > 0 {
      RunKeeps(tables, events, n - 1);
      StepKeeps(tables[n - 1], events[n - 1], tables[n]);
    }
  }

  /** A pair stays outstanding until a release of exactly that pair. */
  lemma {:induction false} StaysOutstanding(tables: seq<Table>, events: seq<Event>, from: nat, to: nat, listId: string, index: int)
    requires IsRun(tables, events) && from <= to < |tables|
    requires Outstanding(tables[from], listId, index)
    requires forall k :: from <= k < to ==> !IsFree(events[k], listId, index)
    ensures Outstanding(tables[to], listId, index)
  {
    hide Outstanding, Step, TableOk;
    if from < to {
      StaysOutstanding(tables, events, from, to - 1, listId, index);
      RunKeeps(tables, events, to - 1);
      StepKeeps(tables[to - 1], events[to - 1], tables[to]);
    }
  }

  /** No pair is handed out twice: between two allocations of it lies a release of it. */
  lemma NeverHandedOutTwice(tables: seq<Table>, events: seq<Event>, i: nat, j: nat)
    requires IsRun(tables, events) && i < j < |events|
    requires events[i].Allocation? && events[j].Allocation?
    requires events[i].listId == events[j].listId && events[i].index == events[j].index
    ensures exists k :: i < k < j && IsFree(events[k], events[i].listId, events[i].index)
  {
    hide Outstanding, Step, TableOk;
    var listId, index := events[i].listId, events[i].index;
    RunKeeps(tables, events, i);
    RunKeeps(tables, events, j);
    StepKeeps(tables[i], events[i], tables[i + 1]);
    StepKeeps(tables[j], events[j], tables[j + 1]);
    if forall k :: i < k < j ==> !IsFree(events[k], listId, index) {
      StaysOutstanding(tables, events, i + 1, j, listId, index);
      assert false;
    }
  }

  /** In every run each stored count is the number of outstanding indices of its list, at
      most its size, and no issuer ever has two active lists. */
  lemma StoredCountsExact(tables: seq<Table>, events: seq<Event>, n: nat, l: string, m: string)
    requires IsRun(tables, events) && n < |tables| && l in tables[n] && m in tables[n]
    ensures var row := tables[n][l];
            && row.allocatedCount == |set i | 0 <= i < row.listSize && Outstanding(tables[n], l, i)| <= row.listSize
            && (row.isActive && ActiveFor(tables[n][m], row.orgId, row.issuerDid) ==> l == m)
  {
    hide Bit;
    RunKeeps(tables, events, n);
    var row := tables[n][l];
    assert RowOk(row);
    assert (set i | 0 <= i < row.listSize && Outstanding(tables[n], l, i)) == TakenBelow(row.bitmap, row.listSize);
    TakenSize(row.bitmap, row.listSize);
  }
}
