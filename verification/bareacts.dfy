/**
 * The statute search (`/api/search-bareacts`): the rows the SQL returns, one
 * per act x section x form x notification x schedule combination of the LEFT
 * JOINs, are folded into one nested item per distinct `bareActId`, each
 * carrying four child lists deduplicated by the child's id.
 */
module BareActs {
  import opened Wrappers
  import opened Dedup

  /** A nullable text column. */
  type Text = Option<string>

  /** A nullable numeric id column. JavaScript treats `null` and `0` as false, so only a
      non-zero id counts as present. */
  predicate Present(id: Option<int>) {
    id.Some? && id.value != 0
  }

  /** One row of the statute query, with the column names of its SELECT list. Child columns
      are null when the LEFT JOIN found no child row. */
  datatype Row = Row(
    bareActId: int,
    bareActName: Text,
    bareActEnactment: Text,
    bareActDate: Text,
    bareActDesc: Text,
    bareActIndex: Text,
    bareActShortName: Text,
    bareActState: Text,
    bareActSectionId: Option<int>,
    bareActSectionNo: Text,
    bareActSectionName: Text,
    bareActSectionPrefix: Text,
    bareActSectionText: Text,
    sectionState: Text,
    bareActFormId: Option<int>,
    bareActFormName: Text,
    bareActFormHTML: Text,
    bareActNotificationId: Option<int>,
    bareActNotificationName: Text,
    bareActNotificationHTML: Text,
    bareActScheduleId: Option<int>,
    bareActScheduleName: Text,
    bareActScheduleHTML: Text)

  datatype Section = Section(
    sectionId: int, sectionNo: Text, sectionName: Text, sectionPrefix: Text, sectionText: Text, sectionState: Text)

  datatype Form = Form(formId: int, formName: Text, formHTML: Text)

  datatype Notification = Notification(notificationId: int, notificationName: Text, notificationHTML: Text)

  datatype Schedule = Schedule(scheduleId: int, scheduleName: Text, scheduleHTML: Text)

  /** One item of the response: the act's own columns and its four child lists. */
  datatype BareAct = BareAct(
    bareActId: int,
    bareActName: Text,
    bareActEnactment: Text,
    bareActDate: Text,
    bareActDesc: Text,
    bareActIndex: Text,
    bareActShortName: Text,
    bareActState: Text,
    sections: seq<Section>,
    forms: seq<Form>,
    notifications: seq<Notification>,
    schedules: seq<Schedule>)

  // The ids by which items and children are deduplicated.
  function ActKey(r: Row): int { r.bareActId }
  function SectionKey(s: Section): int { s.sectionId }
  function FormKey(f: Form): int { f.formId }
  function NotificationKey(n: Notification): int { n.notificationId }
  function ScheduleKey(s: Schedule): int { s.scheduleId }

  // The child objects the handler builds from a row.
  function SectionOf(r: Row): Section requires Present(r.bareActSectionId) {
    Section(r.bareActSectionId.value, r.bareActSectionNo, r.bareActSectionName,
            r.bareActSectionPrefix, r.bareActSectionText, r.sectionState)
  }
  function FormOf(r: Row): Form requires Present(r.bareActFormId) {
    Form(r.bareActFormId.value, r.bareActFormName, r.bareActFormHTML)
  }
  function NotificationOf(r: Row): Notification requires Present(r.bareActNotificationId) {
    Notification(r.bareActNotificationId.value, r.bareActNotificationName, r.bareActNotificationHTML)
  }
  function ScheduleOf(r: Row): Schedule requires Present(r.bareActScheduleId) {
    Schedule(r.bareActScheduleId.value, r.bareActScheduleName, r.bareActScheduleHTML)
  }

  // The child each kind of list takes from a row, when the row has one.
  function SectionIn(r: Row): Option<Section> {
    if Present(r.bareActSectionId) then Some(SectionOf(r)) else None
  }
  function FormIn(r: Row): Option<Form> {
    if Present(r.bareActFormId) then Some(FormOf(r)) else None
  }
  function NotificationIn(r: Row): Option<Notification> {
    if Present(r.bareActNotificationId) then Some(NotificationOf(r)) else None
  }
  function ScheduleIn(r: Row): Option<Schedule> {
    if Present(r.bareActScheduleId) then Some(ScheduleOf(r)) else None
  }

  /** The list holding the child, if there is one. */
  function ListOf<C>(c: Option<C>): seq<C> {
    if c.Some? then [c.value] else []
  }

  /** `xs` with the child pushed, when there is one and no entry of `xs` has its id. */
  function PushChild<C>(xs: seq<C>, key: C -> int, c: Option<C>): seq<C> {
    if c.Some? then PushIfAbsent(xs, key, c.value) else xs
  }

  /** The item created for the first row of an act: its columns, and each list holding the
      row's child when the row has one and empty otherwise. */
  function NewItem(r: Row): BareAct {
    BareAct(r.bareActId, r.bareActName, r.bareActEnactment, r.bareActDate, r.bareActDesc,
            r.bareActIndex, r.bareActShortName, r.bareActState,
            ListOf(SectionIn(r)), ListOf(FormIn(r)), ListOf(NotificationIn(r)), ListOf(ScheduleIn(r)))
  }

  /** A later row of an act already seen: each child is pushed when the row has one and no
      entry of the list has its id yet. The act's own columns are left as they are. */
  function AddToItem(item: BareAct, r: Row): BareAct {
    item.(sections := PushChild(item.sections, SectionKey, SectionIn(r)),
          forms := PushChild(item.forms, FormKey, FormIn(r)),
          notifications := PushChild(item.notifications, NotificationKey, NotificationIn(r)),
          schedules := PushChild(item.schedules, ScheduleKey, ScheduleIn(r)))
  }

  /** Position of the first item with id `id` (the `find` over the items built so far). */
  function FindItem(items: seq<BareAct>, id: int): (k: Option<nat>)
    ensures k.Some? ==>
      && k.value < |items| && items[k.value].bareActId == id
      && forall j :: 0 <= j < k.value ==> items[j].bareActId != id
    ensures k.None? ==> forall j :: 0 <= j < |items| ==> items[j].bareActId != id
  {
    if items == [] then None
    else if items[0].bareActId == id then Some(0)
    else match FindItem(items[1..], id)
      case None => None
      case Some(k) => Some(k + 1)
  }

  /** One iteration of the handler's `rows.forEach`. */
  function AddRow(items: seq<BareAct>, r: Row): seq<BareAct> {
    match FindItem(items, r.bareActId)
    case Some(k) => items[k := AddToItem(items[k], r)]
    case None => items + [NewItem(r)]
  }

  /** The response the handler builds from `rows`. */
  function Organize(rows: seq<Row>): seq<BareAct> {
    if rows == [] then [] else AddRow(Organize(rows[..|rows| - 1]), rows[|rows| - 1])
  }

  /** Builds the response the way the handler does: a loop over the rows, a linear search
      for the row's item, and pushes onto that item's lists or a new item. */
  method OrganizeRows(rows: seq<Row>) returns (organized: seq<BareAct>)
    ensures organized == Organize(rows)
  {
    organized := [];
    for i := 0 to |rows|
      invariant organized == Organize(rows[..i])
    {
      var row := rows[i];
      assert rows[..i + 1][..i] == rows[..i];
      assert Organize(rows[..i + 1]) == AddRow(organized, row);
      var found := FindExisting(organized, row.bareActId);
      if found.Some? {
        var item := PushChildren(organized[found.value], row);
        organized := organized[found.value := item];
      } else {
        var item := CreateItem(row);
        organized := organized + [item];
      }
    }
    assert rows[..|rows|] == rows;
  }

  /** The branch of the handler for a row whose act already has an item: each child the row
      carries is pushed unless the list already has an entry with its id. */
  method PushChildren(item: BareAct, row: Row) returns (updated: BareAct)
    ensures updated == AddToItem(item, row)
  {
    var sections := PushIfNew(item.sections, SectionKey, SectionIn(row));
    var forms := PushIfNew(item.forms, FormKey, FormIn(row));
    var notifications := PushIfNew(item.notifications, NotificationKey, NotificationIn(row));
    var schedules := PushIfNew(item.schedules, ScheduleKey, ScheduleIn(row));
    updated := item.(sections := sections, forms := forms, notifications := notifications, schedules := schedules);
  }

  /** One `if (id && !list.some(...)) list.push(...)` of the handler. */
  method PushIfNew<C>(xs: seq<C>, key: C -> int, c: Option<C>) returns (ys: seq<C>)
    ensures ys == PushChild(xs, key, c)
  {
    ys := xs;
    if c.Some? {
      var seen := AnyHasKey(xs, key, key(c.value));
      if !seen {
        ys := xs + [c.value];
      }
    }
  }

  /** The branch of the handler for the first row of an act: a new item with the act's
      columns and, in each list, the row's child when it has one. */
  method CreateItem(row: Row) returns (item: BareAct)
    ensures item == NewItem(row)
  {
    item := BareAct(row.bareActId, row.bareActName, row.bareActEnactment, row.bareActDate,
                    row.bareActDesc, row.bareActIndex, row.bareActShortName, row.bareActState,
                    [], [], [], []);
    if Present(row.bareActSectionId) { item := item.(sections := [SectionOf(row)]); }
    if Present(row.bareActFormId) { item := item.(forms := [FormOf(row)]); }
    if Present(row.bareActNotificationId) { item := item.(notifications := [NotificationOf(row)]); }
    if Present(row.bareActScheduleId) { item := item.(schedules := [ScheduleOf(row)]); }
  }

  /** The `find` of the handler: the first item whose id is `id`, if any. */
  method FindExisting(items: seq<BareAct>, id: int) returns (k: Option<nat>)
    ensures k == FindItem(items, id)
  {
    var i := 0;
    while i < |items|
      invariant 0 <= i <= |items|
      invariant forall j :: 0 <= j < i ==> items[j].bareActId != id
    {
      if items[i].bareActId == id {
        return Some(i);
      }
      i := i + 1;
    }
    return None;
  }

  // ---------------------------------------------------------------------------------------
  // A reference definition of the response, stated without the loop, and its properties.

  /** The children of one kind that the rows of act `id` carry, one per row that has one, in row order. */
  function ChildrenFor<C>(rows: seq<Row>, id: int, child: Row -> Option<C>): seq<C> {
    if rows == [] then []
    else
      var r := rows[|rows| - 1];
      ChildrenFor(rows[..|rows| - 1], id, child) + (if r.bareActId == id && child(r).Some? then [child(r).value] else [])
  }

  /** Appending a row appends the child it carries for act `id`, if any. */
  lemma ChildrenForSnoc<C>(init: seq<Row>, r: Row, id: int, child: Row -> Option<C>)
    ensures ChildrenFor(init + [r], id, child) ==
      ChildrenFor(init, id, child) + (if r.bareActId == id && child(r).Some? then [child(r).value] else [])
  {
    assert (init + [r])[..|init|] == init;
  }

  /** The item for the act whose first row is `first`: that row's columns, and for each list
      the first child per id among the children the act's rows carry. */
  function ItemFor(rows: seq<Row>, first: Row): BareAct {
    var id := first.bareActId;
    BareAct(id, first.bareActName, first.bareActEnactment, first.bareActDate, first.bareActDesc,
            first.bareActIndex, first.bareActShortName, first.bareActState,
            Distinct(ChildrenFor(rows, id, SectionIn), SectionKey),
            Distinct(ChildrenFor(rows, id, FormIn), FormKey),
            Distinct(ChildrenFor(rows, id, NotificationIn), NotificationKey),
            Distinct(ChildrenFor(rows, id, ScheduleIn), ScheduleKey))
  }

  /** One item per distinct act id, in the order in which the ids first occur in the rows. */
  function Expected(rows: seq<Row>): seq<BareAct> {
    var firsts := Distinct(rows, ActKey);
    seq(|firsts|, k requires 0 <= k < |firsts| => ItemFor(rows, firsts[k]))
  }

  /** A row of another act leaves an act's item as it was. */
  lemma ItemForOtherRow(init: seq<Row>, r: Row, first: Row)
    requires first.bareActId != r.bareActId
    ensures ItemFor(init + [r], first) == ItemFor(init, first)
  {
    var id := first.bareActId;
    DistinctChildrenSnoc(init, r, id, SectionIn, SectionKey);
    DistinctChildrenSnoc(init, r, id, FormIn, FormKey);
    DistinctChildrenSnoc(init, r, id, NotificationIn, NotificationKey);
    DistinctChildrenSnoc(init, r, id, ScheduleIn, ScheduleKey);
  }

  /** A row of the same act adds its children as the handler's push-if-absent does. */
  lemma ItemForSameRow(init: seq<Row>, r: Row, first: Row)
    requires first.bareActId == r.bareActId
    ensures ItemFor(init + [r], first) == AddToItem(ItemFor(init, first), r)
  {
    var id := r.bareActId;
    DistinctChildrenSnoc(init, r, id, SectionIn, SectionKey);
    DistinctChildrenSnoc(init, r, id, FormIn, FormKey);
    DistinctChildrenSnoc(init, r, id, NotificationIn, NotificationKey);
    DistinctChildrenSnoc(init, r, id, ScheduleIn, ScheduleKey);
  }

  /** Appending a row to the rows pushes its child onto the act's deduplicated list when the
      row belongs to the act, and changes nothing otherwise. */
  lemma DistinctChildrenSnoc<C>(init: seq<Row>, r: Row, id: int, child: Row -> Option<C>, key: C -> int)
    ensures Distinct(ChildrenFor(init + [r], id, child), key)
         == if r.bareActId == id then PushChild(Distinct(ChildrenFor(init, id, child), key), key, child(r))
            else Distinct(ChildrenFor(init, id, child), key)
  {
    ChildrenForSnoc(init, r, id, child);
    var tail := if r.bareActId == id && child(r).Some? then [child(r).value] else [];
    DistinctSnoc(ChildrenFor(init, id, child), key, tail);
  }

  /** Appending at most one element to a list appends it to the deduplicated list unless its key is there. */
  lemma DistinctSnoc<T>(xs: seq<T>, key: T -> int, tail: seq<T>)
    requires |tail| <= 1
    ensures Distinct(xs + tail, key) == if tail == [] then Distinct(xs, key) else PushIfAbsent(Distinct(xs, key), key, tail[0])
  {
    if tail == [] {
      assert xs + tail == xs;
    } else {
      assert (xs + tail)[..|xs|] == xs;
    }
  }

  /** An act no row belongs to has no children. */
  lemma {:induction false} NoRowsNoChildren(rows: seq<Row>, id: int)
    requires !HasKey(rows, ActKey, id)
    ensures ChildrenFor(rows, id, SectionIn) == [] && ChildrenFor(rows, id, FormIn) == []
    ensures ChildrenFor(rows, id, NotificationIn) == [] && ChildrenFor(rows, id, ScheduleIn) == []
  {
    if rows != [] {
      var init := rows[..|rows| - 1];
      assert forall n :: 0 <= n < |init| ==> init[n] == rows[n];
      assert ActKey(rows[|rows| - 1]) != id;
      NoRowsNoChildren(init, id);
    }
  }

  /** The grouping loop builds exactly the reference response. */
  lemma {:induction false} OrganizeIsExpected(rows: seq<Row>)
    ensures Organize(rows) == Expected(rows)
  {
    if rows != [] {
      var init, r := rows[..|rows| - 1], rows[|rows| - 1];
      assert rows == init + [r];
      OrganizeIsExpected(init);
      if HasKey(Distinct(init, ActKey), ActKey, r.bareActId) {
        StepOfSeenAct(init, r);
      } else {
        StepOfNewAct(init, r);
      }
    }
  }

  /** Inductive step of OrganizeIsExpected for a row whose act already has an item. */
  lemma StepOfSeenAct(init: seq<Row>, r: Row)
    requires Organize(init) == Expected(init)
    requires HasKey(Distinct(init, ActKey), ActKey, r.bareActId)
    ensures Organize(init + [r]) == Expected(init + [r])
  {
    var rows, items, firsts := init + [r], Organize(init), Distinct(init, ActKey);
    assert rows[..|rows| - 1] == init;
    var w :| 0 <= w < |firsts| && ActKey(firsts[w]) == r.bareActId;
    assert items[w] == ItemFor(init, firsts[w]);
    var k := FindItem(items, r.bareActId).value;
    assert items[k] == ItemFor(init, firsts[k]);
    ExpectedSnocSeen(init, r, k);
  }

  /** The reference response after a row of an act it already has: that act's item takes
      the row's children, the others stay. */
  lemma ExpectedSnocSeen(init: seq<Row>, r: Row, k: nat)
    requires k < |Distinct(init, ActKey)| && Distinct(init, ActKey)[k].bareActId == r.bareActId
    ensures Expected(init + [r]) == Expected(init)[k := AddToItem(Expected(init)[k], r)]
  {
    var rows, firsts := init + [r], Distinct(init, ActKey);
    assert rows[..|rows| - 1] == init;
    assert HasKey(firsts, ActKey, r.bareActId);
    assert Distinct(rows, ActKey) == firsts;
    DistinctKeysUnique(init, ActKey);
    var e, e' := Expected(init), Expected(rows);
    var updated := e[k := AddToItem(e[k], r)];
    forall j | 0 <= j < |firsts|
      ensures e'[j] == updated[j]
    {
      if j == k {
        ItemForSameRow(init, r, firsts[j]);
      } else {
        ItemForOtherRow(init, r, firsts[j]);
      }
    }
    assert e' == updated;
  }

  /** Inductive step of OrganizeIsExpected for the first row of an act. */
  lemma StepOfNewAct(init: seq<Row>, r: Row)
    requires Organize(init) == Expected(init)
    requires !HasKey(Distinct(init, ActKey), ActKey, r.bareActId)
    ensures Organize(init + [r]) == Expected(init + [r])
  {
    var rows, items, firsts := init + [r], Organize(init), Distinct(init, ActKey);
    assert rows[..|rows| - 1] == init;
    assert forall j :: 0 <= j < |firsts| ==> items[j] == ItemFor(init, firsts[j]);
    assert FindItem(items, r.bareActId).None?;
    ExpectedSnocNew(init, r);
  }

  /** The reference response after the first row of an act: a new item at the end. */
  lemma ExpectedSnocNew(init: seq<Row>, r: Row)
    requires !HasKey(Distinct(init, ActKey), ActKey, r.bareActId)
    ensures Expected(init + [r]) == Expected(init) + [NewItem(r)]
  {
    var rows, firsts := init + [r], Distinct(init, ActKey);
    assert rows[..|rows| - 1] == init;
    assert Distinct(rows, ActKey) == firsts + [r];
    DistinctSameKeys(init, ActKey, r.bareActId);
    NoRowsNoChildren(init, r.bareActId);
    NewItemIsFirstItem(init, r);
    var e, e' := Expected(init), Expected(rows);
    forall j | 0 <= j < |e'|
      ensures e'[j] == (e + [NewItem(r)])[j]
    {
      if j < |firsts| {
        ItemForOtherRow(init, r, firsts[j]);
      }
    }
    assert e' == e + [NewItem(r)];
  }

  /** The item of an act's first row, built by the reference definition, is the handler's new item. */
  lemma NewItemIsFirstItem(init: seq<Row>, r: Row)
    requires ChildrenFor(init, r.bareActId, SectionIn) == [] && ChildrenFor(init, r.bareActId, FormIn) == []
    requires ChildrenFor(init, r.bareActId, NotificationIn) == [] && ChildrenFor(init, r.bareActId, ScheduleIn) == []
    ensures ItemFor(init + [r], r) == NewItem(r)
  {
    FirstRowChildren(init, r, SectionIn, SectionKey);
    FirstRowChildren(init, r, FormIn, FormKey);
    FirstRowChildren(init, r, NotificationIn, NotificationKey);
    FirstRowChildren(init, r, ScheduleIn, ScheduleKey);
  }

  /** For the first row of an act, a child list holds that row's child if it has one. */
  lemma FirstRowChildren<C>(init: seq<Row>, r: Row, child: Row -> Option<C>, key: C -> int)
    requires ChildrenFor(init, r.bareActId, child) == []
    ensures Distinct(ChildrenFor(init + [r], r.bareActId, child), key) == ListOf(child(r))
  {
    ChildrenForSnoc(init, r, r.bareActId, child);
    var tail := if child(r).Some? then [child(r).value] else [];
    assert ChildrenFor(init + [r], r.bareActId, child) == [] + tail;
    DistinctSnoc([], key, tail);
  }

  /** A row with a child of some kind puts that child into the act's list of that kind. */
  lemma {:induction false} ChildrenForHas<C>(rows: seq<Row>, n: nat, child: Row -> Option<C>, key: C -> int)
    requires n < |rows| && child(rows[n]).Some?
    ensures HasKey(ChildrenFor(rows, rows[n].bareActId, child), key, key(child(rows[n]).value))
  {
    var init, r, id := rows[..|rows| - 1], rows[|rows| - 1], rows[n].bareActId;
    assert rows == init + [r];
    ChildrenForSnoc(init, r, id, child);
    var cs := ChildrenFor(rows, id, child);
    if n == |rows| - 1 {
      assert cs[|cs| - 1] == child(r).value;
    } else {
      assert rows[n] == init[n];
      ChildrenForHas(init, n, child, key);
      var w :| 0 <= w < |ChildrenFor(init, id, child)| && key(ChildrenFor(init, id, child)[w]) == key(child(rows[n]).value);
      assert cs[w] == ChildrenFor(init, id, child)[w];
    }
  }

  /** Every child in the act's list of some kind comes from a row of that act. */
  lemma {:induction false} ChildrenForFrom<C>(rows: seq<Row>, id: int, child: Row -> Option<C>, i: nat)
    requires i < |ChildrenFor(rows, id, child)|
    ensures exists n :: 0 <= n < |rows| && rows[n].bareActId == id && child(rows[n]) == Some(ChildrenFor(rows, id, child)[i])
  {
    var init, r := rows[..|rows| - 1], rows[|rows| - 1];
    assert rows == init + [r];
    ChildrenForSnoc(init, r, id, child);
    if i < |ChildrenFor(init, id, child)| {
      ChildrenForFrom(init, id, child, i);
      var n :| 0 <= n < |init| && init[n].bareActId == id && child(init[n]) == Some(ChildrenFor(init, id, child)[i]);
      assert rows[n] == init[n];
    } else {
      assert rows[|rows| - 1] == r;
    }
  }

  // ---------------------------------------------------------------------------------------
  // Properties of the response.

  /** The response has one item per distinct act id of the rows and no other: no two items
      share an id, every row's act has an item, every item's id occurs in the rows, and the
      items follow the order in which their ids first occur. */
  lemma OneItemPerAct(rows: seq<Row>)
    ensures forall i, j :: 0 <= i < j < |Organize(rows)| ==> Organize(rows)[i].bareActId != Organize(rows)[j].bareActId
    ensures forall n :: 0 <= n < |rows| ==> FindItem(Organize(rows), rows[n].bareActId).Some?
    ensures forall k :: 0 <= k < |Organize(rows)| ==> HasKey(rows, ActKey, Organize(rows)[k].bareActId)
    ensures forall i, j :: 0 <= i < j < |Organize(rows)| ==>
      OccursBefore(rows, ActKey, Organize(rows)[i].bareActId, Organize(rows)[j].bareActId)
  {
    OrganizeIsExpected(rows);
    var items, firsts := Organize(rows), Distinct(rows, ActKey);
    assert forall k :: 0 <= k < |firsts| ==> items[k].bareActId == ActKey(firsts[k]);
    DistinctKeysUnique(rows, ActKey);
    DistinctKeepsFirstOrder(rows, ActKey);
    forall n | 0 <= n < |rows|
      ensures FindItem(items, rows[n].bareActId).Some?
    {
      DistinctSameKeys(rows, ActKey, rows[n].bareActId);
      var w :| 0 <= w < |firsts| && ActKey(firsts[w]) == rows[n].bareActId;
      assert items[w].bareActId == rows[n].bareActId;
    }
    forall k | 0 <= k < |items|
      ensures HasKey(rows, ActKey, items[k].bareActId)
    {
      DistinctSameKeys(rows, ActKey, items[k].bareActId);
    }
  }

  /** The item's own columns equal those of `r`. */
  predicate ColumnsFrom(item: BareAct, r: Row) {
    && item.bareActId == r.bareActId
    && item.bareActName == r.bareActName
    && item.bareActEnactment == r.bareActEnactment
    && item.bareActDate == r.bareActDate
    && item.bareActDesc == r.bareActDesc
    && item.bareActIndex == r.bareActIndex
    && item.bareActShortName == r.bareActShortName
    && item.bareActState == r.bareActState
  }

  /** Each item's own columns are taken from the first row of its act; later rows never overwrite them. */
  lemma ItemColumnsFromFirstRow(rows: seq<Row>)
    ensures forall k :: 0 <= k < |Organize(rows)| ==>
      HasKey(rows, ActKey, Organize(rows)[k].bareActId) &&
      ColumnsFrom(Organize(rows)[k], rows[FirstIndex(rows, ActKey, Organize(rows)[k].bareActId)])
  {
    OrganizeIsExpected(rows);
    DistinctTakesFirst(rows, ActKey);
  }

  /** Each list of an item holds, for every id the act's rows carry in that kind, the child of
      the first such row, in order of first occurrence. */
  lemma ItemChildLists(rows: seq<Row>, k: nat)
    requires k < |Organize(rows)|
    ensures Organize(rows)[k].sections == Distinct(ChildrenFor(rows, Organize(rows)[k].bareActId, SectionIn), SectionKey)
    ensures Organize(rows)[k].forms == Distinct(ChildrenFor(rows, Organize(rows)[k].bareActId, FormIn), FormKey)
    ensures Organize(rows)[k].notifications == Distinct(ChildrenFor(rows, Organize(rows)[k].bareActId, NotificationIn), NotificationKey)
    ensures Organize(rows)[k].schedules == Distinct(ChildrenFor(rows, Organize(rows)[k].bareActId, ScheduleIn), ScheduleKey)
  {
    OrganizeIsExpected(rows);
  }

  /** Under one act, no two sections share a sectionId, no two forms a formId, no two
      notifications a notificationId and no two schedules a scheduleId. */
  lemma {:induction false} ChildIdsUnique(rows: seq<Row>)
    ensures forall k :: 0 <= k < |Organize(rows)| ==> ChildIdsUniqueIn(Organize(rows)[k])
  {
    forall k | 0 <= k < |Organize(rows)|
      ensures ChildIdsUniqueIn(Organize(rows)[k])
    {
      var id := Organize(rows)[k].bareActId;
      ItemChildLists(rows, k);
      DistinctKeysUnique(ChildrenFor(rows, id, SectionIn), SectionKey);
      DistinctKeysUnique(ChildrenFor(rows, id, FormIn), FormKey);
      DistinctKeysUnique(ChildrenFor(rows, id, NotificationIn), NotificationKey);
      DistinctKeysUnique(ChildrenFor(rows, id, ScheduleIn), ScheduleKey);
    }
  }

  /** No two entries of one of the item's lists share an id. */
  predicate ChildIdsUniqueIn(item: BareAct) {
    && (forall i, j :: 0 <= i < j < |item.sections| ==> item.sections[i].sectionId != item.sections[j].sectionId)
    && (forall i, j :: 0 <= i < j < |item.forms| ==> item.forms[i].formId != item.forms[j].formId)
    && (forall i, j :: 0 <= i < j < |item.notifications| ==>
          item.notifications[i].notificationId != item.notifications[j].notificationId)
    && (forall i, j :: 0 <= i < j < |item.schedules| ==> item.schedules[i].scheduleId != item.schedules[j].scheduleId)
  }

  /** Every non-null child id in any row of an act appears in that act's list of that kind. */
  lemma ChildrenComplete(rows: seq<Row>)
    ensures forall n, k :: 0 <= n < |rows| && 0 <= k < |Organize(rows)| && rows[n].bareActId == Organize(rows)[k].bareActId ==>
      (Present(rows[n].bareActSectionId) ==> HasKey(Organize(rows)[k].sections, SectionKey, rows[n].bareActSectionId.value)) &&
      (Present(rows[n].bareActFormId) ==> HasKey(Organize(rows)[k].forms, FormKey, rows[n].bareActFormId.value)) &&
      (Present(rows[n].bareActNotificationId) ==> HasKey(Organize(rows)[k].notifications, NotificationKey, rows[n].bareActNotificationId.value)) &&
      (Present(rows[n].bareActScheduleId) ==> HasKey(Organize(rows)[k].schedules, ScheduleKey, rows[n].bareActScheduleId.value))
  {
    forall n, k | 0 <= n < |rows| && 0 <= k < |Organize(rows)| && rows[n].bareActId == Organize(rows)[k].bareActId
      ensures
        (Present(rows[n].bareActSectionId) ==> HasKey(Organize(rows)[k].sections, SectionKey, rows[n].bareActSectionId.value)) &&
        (Present(rows[n].bareActFormId) ==> HasKey(Organize(rows)[k].forms, FormKey, rows[n].bareActFormId.value)) &&
        (Present(rows[n].bareActNotificationId) ==> HasKey(Organize(rows)[k].notifications, NotificationKey, rows[n].bareActNotificationId.value)) &&
        (Present(rows[n].bareActScheduleId) ==> HasKey(Organize(rows)[k].schedules, ScheduleKey, rows[n].bareActScheduleId.value))
    {
      var id := rows[n].bareActId;
      ItemChildLists(rows, k);
      if Present(rows[n].bareActSectionId) {
        ChildrenForHas(rows, n, SectionIn, SectionKey);
        DistinctSameKeys(ChildrenFor(rows, id, SectionIn), SectionKey, rows[n].bareActSectionId.value);
      }
      if Present(rows[n].bareActFormId) {
        ChildrenForHas(rows, n, FormIn, FormKey);
        DistinctSameKeys(ChildrenFor(rows, id, FormIn), FormKey, rows[n].bareActFormId.value);
      }
      if Present(rows[n].bareActNotificationId) {
        ChildrenForHas(rows, n, NotificationIn, NotificationKey);
        DistinctSameKeys(ChildrenFor(rows, id, NotificationIn), NotificationKey, rows[n].bareActNotificationId.value);
      }
      if Present(rows[n].bareActScheduleId) {
        ChildrenForHas(rows, n, ScheduleIn, ScheduleKey);
        DistinctSameKeys(ChildrenFor(rows, id, ScheduleIn), ScheduleKey, rows[n].bareActScheduleId.value);
      }
    }
  }

  /** Every child an item lists was built from a row of that act carrying that child. */
  lemma {:induction false} ChildrenFromOwnRows(rows: seq<Row>, k: nat)
    requires k < |Organize(rows)|
    ensures forall c :: c in Organize(rows)[k].sections ==>
      exists n :: 0 <= n < |rows| && rows[n].bareActId == Organize(rows)[k].bareActId && SectionIn(rows[n]) == Some(c)
    ensures forall c :: c in Organize(rows)[k].forms ==>
      exists n :: 0 <= n < |rows| && rows[n].bareActId == Organize(rows)[k].bareActId && FormIn(rows[n]) == Some(c)
    ensures forall c :: c in Organize(rows)[k].notifications ==>
      exists n :: 0 <= n < |rows| && rows[n].bareActId == Organize(rows)[k].bareActId && NotificationIn(rows[n]) == Some(c)
    ensures forall c :: c in Organize(rows)[k].schedules ==>
      exists n :: 0 <= n < |rows| && rows[n].bareActId == Organize(rows)[k].bareActId && ScheduleIn(rows[n]) == Some(c)
  {
    var id := Organize(rows)[k].bareActId;
    ItemChildLists(rows, k);
    forall c | c in Organize(rows)[k].sections
      ensures exists n :: 0 <= n < |rows| && rows[n].bareActId == id && SectionIn(rows[n]) == Some(c)
    {
      DistinctChildFrom(rows, id, SectionIn, SectionKey, c);
    }
    forall c | c in Organize(rows)[k].forms
      ensures exists n :: 0 <= n < |rows| && rows[n].bareActId == id && FormIn(rows[n]) == Some(c)
    {
      DistinctChildFrom(rows, id, FormIn, FormKey, c);
    }
    forall c | c in Organize(rows)[k].notifications
      ensures exists n :: 0 <= n < |rows| && rows[n].bareActId == id && NotificationIn(rows[n]) == Some(c)
    {
      DistinctChildFrom(rows, id, NotificationIn, NotificationKey, c);
    }
    forall c | c in Organize(rows)[k].schedules
      ensures exists n :: 0 <= n < |rows| && rows[n].bareActId == id && ScheduleIn(rows[n]) == Some(c)
    {
      DistinctChildFrom(rows, id, ScheduleIn, ScheduleKey, c);
    }
  }

  /** An entry of a deduplicated child list comes from a row of the act that carries it. */
  lemma DistinctChildFrom<C>(rows: seq<Row>, id: int, child: Row -> Option<C>, key: C -> int, c: C)
    requires c in Distinct(ChildrenFor(rows, id, child), key)
    ensures exists n :: 0 <= n < |rows| && rows[n].bareActId == id && child(rows[n]) == Some(c)
  {
    var cs := ChildrenFor(rows, id, child);
    var d := Distinct(cs, key);
    var i :| 0 <= i < |d| && d[i] == c;
    DistinctTakesFirst(cs, key);
    ChildrenForFrom(rows, id, child, FirstIndex(cs, key, key(d[i])));
  }

  /** A row without a child of some kind changes no list of that kind, and if it starts a new
      item, that item's list of that kind is empty. */
  lemma AbsentChildAddsNothing(items: seq<BareAct>, r: Row)
    ensures |items| <= |AddRow(items, r)| <= |items| + 1
    ensures !Present(r.bareActSectionId) ==> forall k :: 0 <= k < |AddRow(items, r)| ==>
      AddRow(items, r)[k].sections == if k < |items| then items[k].sections else []
    ensures !Present(r.bareActFormId) ==> forall k :: 0 <= k < |AddRow(items, r)| ==>
      AddRow(items, r)[k].forms == if k < |items| then items[k].forms else []
    ensures !Present(r.bareActNotificationId) ==> forall k :: 0 <= k < |AddRow(items, r)| ==>
      AddRow(items, r)[k].notifications == if k < |items| then items[k].notifications else []
    ensures !Present(r.bareActScheduleId) ==> forall k :: 0 <= k < |AddRow(items, r)| ==>
      AddRow(items, r)[k].schedules == if k < |items| then items[k].schedules else []
  {
  }
}
