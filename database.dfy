/**
 * The persisted sleep-session record and the data-access object over its one table,
 * reduced to what the sleep tracker uses: insert, update, the latest night, all nights
 * newest first, and clear.
 */
module Database {
  import opened Wrappers

  /** One sleep session. `nightId` is assigned by the table on insert; a rating of
      `UNRATED` means the user has not rated the night yet. */
  datatype SleepNight = SleepNight(nightId: int, startTimeMilli: int, endTimeMilli: int, sleepRating: int)

  const UNRATED := -1

  /** A night is still being tracked while its end time equals its start time. */
  predicate InProgress(night: SleepNight) {
    night.endTimeMilli == night.startTimeMilli
  }

  /** `SleepNight()` created at time `now`: no id yet, in progress, unrated. */
  function NewNight(now: int): (night: SleepNight)
    ensures InProgress(night) && night.startTimeMilli == now
    ensures night.nightId == 0 && night.sleepRating == UNRATED
  {
    SleepNight(0, now, now, UNRATED)
  }

  /** Keys strictly increase in insertion order, as auto-generated keys do. */
  ghost predicate IdsIncreasing(rows: seq<SleepNight>) {
    forall i, j :: 0 <= i < j < |rows| ==> rows[i].nightId < rows[j].nightId
  }

  /** Keys strictly decrease along the sequence: the order of `getAllNights`. */
  ghost predicate IdsDecreasing(nights: seq<SleepNight>) {
    forall i, j :: 0 <= i < j < |nights| ==> nights[i].nightId > nights[j].nightId
  }

  /** `getTonight`: the most recently inserted row, or nothing when the table is empty. */
  function Latest(rows: seq<SleepNight>): (latest: Option<SleepNight>)
    ensures latest.None? <==> rows == []
    ensures latest.Some? ==> latest.value in rows
  {
    if rows == [] then None else Some(rows[|rows| - 1])
  }

  /** `getAllNights`: every row, the most recently inserted first. */
  function AllNights(rows: seq<SleepNight>): (nights: seq<SleepNight>)
    ensures |nights| == |rows|
    ensures forall i :: 0 <= i < |rows| ==> nights[i] == rows[|rows| - 1 - i]
  {
    if rows == [] then [] else AllNights(rows[1..]) + [rows[0]]
  }

  /** `update(night)`: the row whose key matches takes the night's values; every other row stays. */
  function Updated(rows: seq<SleepNight>, night: SleepNight): (updated: seq<SleepNight>)
    ensures |updated| == |rows|
    ensures forall i :: 0 <= i < |rows| ==> updated[i].nightId == rows[i].nightId
    ensures forall i :: 0 <= i < |rows| && rows[i].nightId != night.nightId ==> updated[i] == rows[i]
    ensures forall i :: 0 <= i < |rows| && rows[i].nightId == night.nightId ==> updated[i] == night
  {
    if rows == [] then []
    else [if rows[0].nightId == night.nightId then night else rows[0]] + Updated(rows[1..], night)
  }

  /** The latest night has the highest key of the table. */
  lemma LatestHasHighestId(rows: seq<SleepNight>)
    requires IdsIncreasing(rows)
    requires rows != []
    ensures forall n :: n in rows ==> n.nightId <= Latest(rows).value.nightId
  {
  }

  /** All nights come newest first, with the latest night at their head. */
  lemma AllNightsNewestFirst(rows: seq<SleepNight>)
    requires IdsIncreasing(rows)
    ensures IdsDecreasing(AllNights(rows))
    ensures rows != [] ==> AllNights(rows)[0] == Latest(rows).value
    ensures multiset(AllNights(rows)) == multiset(rows)
  {
    var nights := AllNights(rows);
    forall i, j | 0 <= i < j < |nights|
      ensures nights[i].nightId > nights[j].nightId
    {
      assert nights[i] == rows[|rows| - 1 - i] && nights[j] == rows[|rows| - 1 - j];
    }
    AllNightsSameElements(rows);
  }

  lemma {:induction false} AllNightsSameElements(rows: seq<SleepNight>)
    ensures multiset(AllNights(rows)) == multiset(rows)
  {
    if rows != [] {
      AllNightsSameElements(rows[1..]);
      assert rows == [rows[0]] + rows[1..];
    }
  }

  /** With unique keys, an update of a stored night replaces exactly that one row. */
  lemma UpdatedReplacesOne(rows: seq<SleepNight>, night: SleepNight, k: nat)
    requires IdsIncreasing(rows)
    requires k < |rows| && rows[k].nightId == night.nightId
    ensures Updated(rows, night) == rows[k := night]
  {
  }

  /** An update whose key is stored leaves the night itself in the table. */
  lemma UpdatedStoresNight(rows: seq<SleepNight>, night: SleepNight)
    ensures (exists n :: n in rows && n.nightId == night.nightId) ==> night in Updated(rows, night)
  {
    if exists n :: n in rows && n.nightId == night.nightId {
      var k :| 0 <= k < |rows| && rows[k].nightId == night.nightId;
      assert Updated(rows, night)[k] == night;
    }
  }

  /**
   * The data-access object: the table's rows in insertion order, and the highest key it
   * has generated. Keys are not reused, so `lastId` survives `Clear`.
   */
  class SleepDatabaseDao {
    var rows: seq<SleepNight>
    var lastId: int

    ghost predicate Valid()
      reads this
    {
      && IdsIncreasing(rows)
      && 0 <= lastId
      && forall i :: 0 <= i < |rows| ==> 0 < rows[i].nightId <= lastId
    }

    constructor ()
      ensures Valid() && rows == [] && lastId == 0
    {
      rows, lastId := [], 0;
    }

    /** `insert(night)`: stores the night under a newly generated key, larger than every key before. */
    method Insert(night: SleepNight)
      requires Valid()
      modifies this
      ensures Valid()
      ensures lastId == old(lastId) + 1
      ensures rows == old(rows) + [night.(nightId := lastId)]
    {
      lastId := lastId + 1;
      rows := rows + [night.(nightId := lastId)];
    }

    /** `update(night)`: rewrites the row with the night's key. */
    method Update(night: SleepNight)
      requires Valid()
      modifies this
      ensures Valid()
      ensures rows == Updated(old(rows), night) && lastId == old(lastId)
    {
      rows := Updated(rows, night);
    }

    /** `getTonight()`. */
    method GetTonight() returns (latest: Option<SleepNight>)
      ensures latest == Latest(rows)
    {
      latest := Latest(rows);
    }

    /** `clear()`: deletes every row. */
    method Clear()
      requires Valid()
      modifies this
      ensures Valid()
      ensures rows == [] && lastId == old(lastId)
    {
      rows := [];
    }
  }
}
