/**
 * The list of nights as the screen shows it: a header followed by one row per night,
 * two view types, the diff callback's two tests, and the binding of row holders.
 */
module Adapter {
  import opened Wrappers
  import opened Database

  const ITEM_VIEW_TYPE_HEADER := 0
  const ITEM_VIEW_TYPE_ITEM := 1

  /** Kotlin's `Long.MIN_VALUE`, -2^63: the key reserved for the header. */
  const LONG_MIN_VALUE := -0x8000_0000_0000_0000

  /** An entry of the displayed list. */
  datatype DataItem = SleepNightItem(sleepNight: SleepNight) | Header {
    /** The item's key: the night's key for a row, the reserved key for the header. */
    function Id(): (id: int)
      ensures Header? ==> id == LONG_MIN_VALUE
      ensures SleepNightItem? ==> id == sleepNight.nightId
    {
      match this
      case SleepNightItem(night) => night.nightId
      case Header => LONG_MIN_VALUE
    }
  }

  /** The list `addHeaderAndSubmitList` submits for `list` (null or a list of nights). */
  function HeaderAndItems(list: Option<seq<SleepNight>>): (items: seq<DataItem>)
    ensures list.None? ==> items == [Header]
    ensures list.Some? ==> |items| == |list.value| + 1
    ensures items[0] == Header
    ensures list.Some? ==> forall i :: 0 < i < |items| ==> items[i] == SleepNightItem(list.value[i - 1])
  {
    match list
    case None => [Header]
    case Some(nights) => [Header] + seq(|nights|, i requires 0 <= i < |nights| => SleepNightItem(nights[i]))
  }

  /** The nights the rows of a displayed list show, in display order. */
  function NightsShown(items: seq<DataItem>): (nights: seq<SleepNight>)
    ensures forall night :: night in nights <==> SleepNightItem(night) in items
  {
    if items == [] then []
    else match items[0]
      case Header => NightsShown(items[1..])
      case SleepNightItem(night) => [night] + NightsShown(items[1..])
  }

  /** The rows show exactly the submitted nights, in the submitted order. */
  lemma HeaderAndItemsShowsList(list: seq<SleepNight>)
    ensures NightsShown(HeaderAndItems(Some(list))) == list
    ensures NightsShown(HeaderAndItems(None)) == []
  {
    var items := HeaderAndItems(Some(list));
    assert items == [Header] + items[1..];
    RowsShowTheirNights(items[1..], list);
  }

  lemma {:induction false} RowsShowTheirNights(rows: seq<DataItem>, list: seq<SleepNight>)
    requires |rows| == |list|
    requires forall i :: 0 <= i < |rows| ==> rows[i] == SleepNightItem(list[i])
    ensures NightsShown(rows) == list
  {
    if rows != [] {
      RowsShowTheirNights(rows[1..], list[1..]);
    }
  }

  /** No two items of a list share a key. */
  ghost predicate DistinctIds(items: seq<DataItem>) {
    forall i, j :: 0 <= i < j < |items| ==> items[i].Id() != items[j].Id()
  }

  /** The header's reserved key keeps item keys unique as long as night keys are unique and
      none of them is the reserved one. */
  lemma HeaderAndItemsDistinctIds(list: seq<SleepNight>)
    requires forall i, j :: 0 <= i < j < |list| ==> list[i].nightId != list[j].nightId
    requires forall i :: 0 <= i < |list| ==> list[i].nightId != LONG_MIN_VALUE
    ensures DistinctIds(HeaderAndItems(Some(list)))
  {
  }

  /** The list built from the table's nights never has two items with one key. */
  lemma TableListDistinctIds(dao: SleepDatabaseDao)
    requires dao.Valid()
    ensures DistinctIds(HeaderAndItems(Some(AllNights(dao.rows))))
  {
  }

  /** `areItemsTheSame`: the same entry, perhaps in another version, when the keys agree. */
  predicate AreItemsTheSame(oldItem: DataItem, newItem: DataItem)
    ensures oldItem.SleepNightItem? && newItem.SleepNightItem? ==>
              (AreItemsTheSame(oldItem, newItem) <==> oldItem.sleepNight.nightId == newItem.sleepNight.nightId)
    ensures oldItem.Header? && newItem.SleepNightItem? ==>
              (AreItemsTheSame(oldItem, newItem) <==> newItem.sleepNight.nightId == LONG_MIN_VALUE)
  {
    oldItem.Id() == newItem.Id()
  }

  /** `areContentsTheSame`: structural equality. */
  predicate AreContentsTheSame(oldItem: DataItem, newItem: DataItem)
    ensures AreContentsTheSame(oldItem, newItem) ==> AreItemsTheSame(oldItem, newItem)
  {
    oldItem == newItem
  }

  /** Two versions of one night are the same item, and have the same contents only when equal. */
  lemma VersionsOfOneNight(older: SleepNight, newer: SleepNight)
    requires older.nightId == newer.nightId
    ensures AreItemsTheSame(SleepNightItem(older), SleepNightItem(newer))
    ensures AreContentsTheSame(SleepNightItem(older), SleepNightItem(newer)) <==> older == newer
  {
  }

  /** Same contents implies same item; the header matches a row only at the reserved key. */
  lemma SameItemProperties(a: DataItem, b: DataItem, night: SleepNight)
    ensures AreContentsTheSame(a, b) ==> AreItemsTheSame(a, b)
    ensures AreItemsTheSame(Header, SleepNightItem(night)) <==> night.nightId == LONG_MIN_VALUE
    ensures AreItemsTheSame(Header, Header)
  {
  }

  /** In a list with unique keys, an item of another version matches at most one entry. */
  lemma SameItemIsUnique(items: seq<DataItem>, item: DataItem, i: nat, j: nat)
    requires DistinctIds(items)
    requires i < |items| && j < |items|
    requires AreItemsTheSame(items[i], item) && AreItemsTheSame(items[j], item)
    ensures i == j
  {
  }

  /** `SleepNightListener.onClick`: the key handed to the click callback for `night`. */
  function OnClick(night: SleepNight): (sleepId: int)
    ensures sleepId == SleepNightItem(night).Id()
  {
    night.nightId
  }

  /** The exception the adapter throws on a view type or an item it cannot handle. */
  datatype ClassCastException = UnknownViewType(viewType: int) | NotASleepNightItem(position: nat)

  /** A row holder; its data binding holds the night shown. */
  class ViewHolder {
    var sleep: Option<SleepNight>

    constructor From()
      ensures sleep == None
    {
      sleep := None;
    }

    /** `bind`: the row's binding now shows `item`. */
    method Bind(item: SleepNight)
      modifies this
      ensures sleep == Some(item)
    {
      sleep := Some(item);
    }
  }

  /** The two kinds of holder: the header's text holder and a row holder. */
  datatype Holder = TextViewHolder | Row(viewHolder: ViewHolder)

  class SleepNightAdapter {
    /** The list last submitted. */
    var currentList: seq<DataItem>

    constructor ()
      ensures currentList == []
    {
      currentList := [];
    }

    /** `addHeaderAndSubmitList`, with the background build and the hand-over to the main
        thread run as one step. */
    method AddHeaderAndSubmitList(list: Option<seq<SleepNight>>)
      modifies this
      ensures currentList == HeaderAndItems(list)
    {
      var items := HeaderAndItems(list);
      currentList := items;
    }

    /** `getItemViewType`: the header's type for the header, the row type for a night. */
    function GetItemViewType(position: nat): (viewType: int)
      reads this
      requires position < |currentList|
      ensures viewType == ITEM_VIEW_TYPE_HEADER <==> currentList[position].Header?
      ensures viewType == ITEM_VIEW_TYPE_ITEM <==> currentList[position].SleepNightItem?
    {
      match currentList[position]
      case Header => ITEM_VIEW_TYPE_HEADER
      case SleepNightItem(_) => ITEM_VIEW_TYPE_ITEM
    }

    /** `onCreateViewHolder`: a text holder for the header type, a new row holder for the
        row type, and an exception for every other view type. */
    method OnCreateViewHolder(viewType: int) returns (holder: Result<Holder, ClassCastException>)
      ensures viewType == ITEM_VIEW_TYPE_HEADER ==> holder == Success(TextViewHolder)
      ensures viewType == ITEM_VIEW_TYPE_ITEM ==>
                holder.Success? && holder.value.Row? && holder.value.viewHolder.sleep == None
      ensures viewType == ITEM_VIEW_TYPE_ITEM ==> fresh(holder.value.viewHolder)
      ensures viewType != ITEM_VIEW_TYPE_HEADER && viewType != ITEM_VIEW_TYPE_ITEM ==>
                holder == Failure(UnknownViewType(viewType))
    {
      if viewType == ITEM_VIEW_TYPE_HEADER {
        holder := Success(TextViewHolder);
      } else if viewType == ITEM_VIEW_TYPE_ITEM {
        var viewHolder := new ViewHolder.From();
        holder := Success(Row(viewHolder));
      } else {
        holder := Failure(UnknownViewType(viewType));
      }
    }

    /** `onBindViewHolder`: a text holder is left as it is; a row holder is bound to the
        night at `position`, which fails when that position holds the header. */
    method OnBindViewHolder(holder: Holder, position: nat) returns (failure: Option<ClassCastException>)
      requires holder.Row? ==> position < |currentList|
      modifies if holder.Row? then {holder.viewHolder} else {}
      ensures holder.TextViewHolder? ==> failure == None
      ensures holder.Row? && currentList[position].SleepNightItem? ==>
                failure == None && holder.viewHolder.sleep == Some(currentList[position].sleepNight)
      ensures holder.Row? && currentList[position].Header? ==>
                failure == Some(NotASleepNightItem(position)) && unchanged(holder.viewHolder)
    {
      failure := None;
      if holder.Row? {
        var item := currentList[position];
        if item.SleepNightItem? {
          holder.viewHolder.Bind(item.sleepNight);
        } else {
          failure := Some(NotASleepNightItem(position));
        }
      }
    }

    /** What the list view does for one position: create a holder for the position's view
        type, then bind it. This never fails; the header gets the text holder and is left
        unbound, and a row's holder shows its night and reports that night's key on click. */
    method ShowPosition(position: nat) returns (holder: Holder, failure: Option<ClassCastException>)
      requires position < |currentList|
      ensures failure == None
      ensures holder.TextViewHolder? <==> currentList[position].Header?
      ensures holder.Row? ==>
                && holder.viewHolder.sleep == Some(currentList[position].sleepNight)
                && OnClick(holder.viewHolder.sleep.value) == currentList[position].Id()
    {
      var created := OnCreateViewHolder(GetItemViewType(position));
      holder := created.value;
      failure := OnBindViewHolder(holder, position);
    }
  }

  /** After `addHeaderAndSubmitList(list)`, position 0 shows the header and position i + 1
      shows night i, whose click reports that night's key. */
  method ShowSubmittedList(list: seq<SleepNight>, i: nat) returns (header: Holder, row: Holder, clicked: int)
    requires i < |list|
    ensures header == TextViewHolder
    ensures row.Row? && row.viewHolder.sleep == Some(list[i])
    ensures clicked == list[i].nightId
  {
    var adapter := new SleepNightAdapter();
    adapter.AddHeaderAndSubmitList(Some(list));
    var failure;
    header, failure := adapter.ShowPosition(0);
    row, failure := adapter.ShowPosition(i + 1);
    clicked := OnClick(row.viewHolder.sleep.value);
  }
}
