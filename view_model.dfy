/**
 * The sleep tracker's view-model: the night being tracked ("tonight"), three one-shot
 * events the screen must acknowledge, and the button visibility derived from them.
 * Each block the view-model launches on its coroutine scope runs here as one step.
 */
module ViewModel {
  import opened Wrappers
  import opened Database

  /** `getTonightFromDatabase` applied to the latest stored night: that night while it is
      still in progress, and nothing when it has ended or the table is empty. */
  function TonightFrom(latest: Option<SleepNight>): (tonight: Option<SleepNight>)
    ensures tonight.Some? <==> latest.Some? && InProgress(latest.value)
    ensures tonight.Some? ==> tonight == latest
  {
    var end := if latest.Some? then Some(latest.value.endTimeMilli) else None;
    var start := if latest.Some? then Some(latest.value.startTimeMilli) else None;
    if end != start then None else latest
  }

  /** Recovery picks the night with the highest key, and only while it is in progress. */
  lemma TonightIsNewestInProgress(rows: seq<SleepNight>)
    requires IdsIncreasing(rows)
    ensures TonightFrom(Latest(rows)).Some? <==> rows != [] && InProgress(rows[|rows| - 1])
    ensures TonightFrom(Latest(rows)).Some? ==>
              var night := TonightFrom(Latest(rows)).value;
              night in rows && forall n :: n in rows ==> n.nightId <= night.nightId
  {
  }

  class SleepTrackerViewModel {
    const database: SleepDatabaseDao
    /** The night in progress, or null. */
    var tonight: Option<SleepNight>
    /** One-shot event: the night whose quality the user should now rate. */
    var navigateToSleepQuality: Option<SleepNight>
    /** One-shot event: whether the "cleared" snackbar is due; unset until the first clear. */
    var showSnackbarEvent: Option<bool>
    /** One-shot event: the key of the night whose details should be shown. */
    var navigateToSleepDetail: Option<int>

    /** The table is well formed. Tonight need not be one of its rows: other screens
        write to the same table. */
    ghost predicate Valid()
      reads database
    {
      database.Valid()
    }

    /** `nights`: the live list of every night, newest first. */
    function Nights(): (nights: seq<SleepNight>)
      reads database
      ensures |nights| == |database.rows|
      ensures database.rows != [] ==> nights[0] == Latest(database.rows).value
    {
      AllNights(database.rows)
    }

    /** Start is offered exactly when stop is not. */
    predicate StartButtonVisible()
      reads this
      ensures StartButtonVisible() <==> !StopButtonVisible()
    {
      tonight == None
    }

    /** Stop is offered exactly while a night is held as tonight. */
    predicate StopButtonVisible()
      reads this
      ensures StopButtonVisible() <==> tonight.Some?
    {
      tonight != None
    }

    /** Clear is offered exactly while the table holds a night. */
    predicate ClearButtonVisible()
      reads database
      ensures ClearButtonVisible() <==> database.rows != []
    {
      |Nights()| != 0
    }

    /** Exactly one of start and stop is offered; clear is offered while any night is stored. */
    lemma ButtonsVisibility()
      ensures StartButtonVisible() <==> !StopButtonVisible()
      ensures ClearButtonVisible() <==> database.rows != []
    {
    }

    /** Construction starts the recovery of tonight from the table. */
    constructor (database: SleepDatabaseDao)
      requires database.Valid()
      ensures Valid() && this.database == database
      ensures tonight == TonightFrom(Latest(database.rows))
      ensures navigateToSleepQuality == None && showSnackbarEvent == None && navigateToSleepDetail == None
    {
      this.database := database;
      tonight, navigateToSleepQuality, showSnackbarEvent, navigateToSleepDetail := None, None, None, None;
      new;
      InitializeTonight();
    }

    /** `initializeTonight`. */
    method InitializeTonight()
      requires database.Valid()
      modifies this
      ensures Valid()
      ensures tonight == TonightFrom(Latest(database.rows))
      ensures navigateToSleepQuality == old(navigateToSleepQuality)
      ensures showSnackbarEvent == old(showSnackbarEvent)
      ensures navigateToSleepDetail == old(navigateToSleepDetail)
    {
      tonight := GetTonightFromDatabase();
    }

    /** `getTonightFromDatabase`: reads the latest night and drops it unless it is in progress. */
    method GetTonightFromDatabase() returns (night: Option<SleepNight>)
      ensures night == TonightFrom(Latest(database.rows))
    {
      night := database.GetTonight();
      night := TonightFrom(night);
    }

    /** `onStartTracking`: stores a new in-progress night and makes it tonight, whatever
        tonight was before. */
    method OnStartTracking(now: int)
      requires Valid()
      modifies this, database
      ensures Valid()
      ensures database.lastId == old(database.lastId) + 1
      ensures database.rows == old(database.rows) + [SleepNight(database.lastId, now, now, UNRATED)]
      ensures tonight == Some(SleepNight(database.lastId, now, now, UNRATED))
      ensures navigateToSleepQuality == old(navigateToSleepQuality)
      ensures showSnackbarEvent == old(showSnackbarEvent)
      ensures navigateToSleepDetail == old(navigateToSleepDetail)
    {
      var newNight := NewNight(now);
      database.Insert(newNight);
      tonight := GetTonightFromDatabase();
    }

    /** `onStopTracking`: without a night in progress nothing happens; otherwise tonight's
        night gets `now` as its end, is written back, and becomes the night to rate. The
        night is changed in place, so tonight keeps pointing at it, now ended. */
    method OnStopTracking(now: int)
      requires Valid()
      modifies this, database
      ensures Valid()
      ensures old(tonight).None? ==> unchanged(this) && unchanged(database)
      ensures old(tonight).Some? ==>
                var stopped := old(tonight).value.(endTimeMilli := now);
                && tonight == Some(stopped)
                && navigateToSleepQuality == Some(stopped)
                && database.rows == Updated(old(database.rows), stopped)
                && ((exists n :: n in old(database.rows) && n.nightId == stopped.nightId) ==> stopped in database.rows)
                && database.lastId == old(database.lastId)
                && showSnackbarEvent == old(showSnackbarEvent)
                && navigateToSleepDetail == old(navigateToSleepDetail)
    {
      if tonight.None? {
        return;
      }
      var oldNight := tonight.value;
      oldNight := oldNight.(endTimeMilli := now);
      tonight := Some(oldNight);
      UpdatedStoresNight(database.rows, oldNight);
      database.Update(oldNight);
      navigateToSleepQuality := Some(oldNight);
    }

    /** `onClear`: empties the table, forgets tonight and raises the snackbar event. */
    method OnClear()
      requires Valid()
      modifies this, database
      ensures Valid()
      ensures database.rows == [] && database.lastId == old(database.lastId)
      ensures tonight == None && showSnackbarEvent == Some(true)
      ensures navigateToSleepQuality == old(navigateToSleepQuality)
      ensures navigateToSleepDetail == old(navigateToSleepDetail)
    {
      database.Clear();
      tonight := None;
      showSnackbarEvent := Some(true);
    }

    /** `doneNavigating`: the quality navigation has been handled. */
    method DoneNavigating()
      modifies this
      ensures navigateToSleepQuality == None
      ensures tonight == old(tonight)
      ensures showSnackbarEvent == old(showSnackbarEvent)
      ensures navigateToSleepDetail == old(navigateToSleepDetail)
    {
      navigateToSleepQuality := None;
    }

    /** `doneShowingSnackbar`: the snackbar has been shown. */
    method DoneShowingSnackbar()
      modifies this
      ensures showSnackbarEvent == Some(false)
      ensures tonight == old(tonight)
      ensures navigateToSleepQuality == old(navigateToSleepQuality)
      ensures navigateToSleepDetail == old(navigateToSleepDetail)
    {
      showSnackbarEvent := Some(false);
    }

    /** `onSleepNightClicked(id)`: asks for the details of night `id`. */
    method OnSleepNightClicked(id: int)
      modifies this
      ensures navigateToSleepDetail == Some(id)
      ensures tonight == old(tonight)
      ensures navigateToSleepQuality == old(navigateToSleepQuality)
      ensures showSnackbarEvent == old(showSnackbarEvent)
    {
      navigateToSleepDetail := Some(id);
    }

    /** `onSleepDetailNavigated`: the detail navigation has been handled. */
    method OnSleepDetailNavigated()
      modifies this
      ensures navigateToSleepDetail == None
      ensures tonight == old(tonight)
      ensures navigateToSleepQuality == old(navigateToSleepQuality)
      ensures showSnackbarEvent == old(showSnackbarEvent)
    {
      navigateToSleepDetail := None;
    }
  }

  /** Start at 1000 and stop at 5000 leave one ended night; a view-model built on the same
      table afterwards (the next launch of the app) finds no night in progress. */
  method StartStopScenario() returns (rows: seq<SleepNight>, recovered: Option<SleepNight>, toRate: Option<SleepNight>)
    ensures rows == [SleepNight(1, 1000, 5000, UNRATED)]
    ensures toRate == Some(SleepNight(1, 1000, 5000, UNRATED))
    ensures recovered == None
  {
    var dao := new SleepDatabaseDao();
    var viewModel := new SleepTrackerViewModel(dao);
    assert viewModel.StartButtonVisible();
    viewModel.OnStartTracking(1000);
    assert viewModel.StopButtonVisible();
    viewModel.OnStopTracking(5000);
    rows, toRate := dao.rows, viewModel.navigateToSleepQuality;
    var nextLaunch := new SleepTrackerViewModel(dao);
    recovered := nextLaunch.tonight;
  }

  /** Clearing a table of three nights empties it; the snackbar event stays raised until
      it is acknowledged, and clear is then no longer offered. */
  method ClearScenario() returns (nights: seq<SleepNight>, raised: Option<bool>, acknowledged: Option<bool>, clearOffered: bool)
    ensures nights == [] && raised == Some(true) && acknowledged == Some(false) && !clearOffered
  {
    var dao := new SleepDatabaseDao();
    var viewModel := new SleepTrackerViewModel(dao);
    viewModel.OnStartTracking(1);
    viewModel.OnStopTracking(2);
    viewModel.OnStartTracking(3);
    viewModel.OnStopTracking(4);
    viewModel.OnStartTracking(5);
    assert |viewModel.Nights()| == 3;
    viewModel.OnClear();
    nights, raised := viewModel.Nights(), viewModel.showSnackbarEvent;
    viewModel.DoneNavigating();
    assert viewModel.showSnackbarEvent == Some(true);
    viewModel.DoneShowingSnackbar();
    acknowledged, clearOffered := viewModel.showSnackbarEvent, viewModel.ClearButtonVisible();
  }

  /** `onStartTracking` itself does not prevent a second night in progress: two starts in a
      row store two. Only the hidden start button keeps a user from doing this. */
  method DoubleStartScenario() returns (rows: seq<SleepNight>)
    ensures |rows| == 2 && InProgress(rows[0]) && InProgress(rows[1])
  {
    var dao := new SleepDatabaseDao();
    var viewModel := new SleepTrackerViewModel(dao);
    viewModel.OnStartTracking(10);
    viewModel.OnStartTracking(20);
    rows := dao.rows;
  }
}
