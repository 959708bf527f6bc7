# Sleep tracker: view-model, night list and rating icons

A Dafny model of the sequential logic of a small Android sleep-tracking app. The user
starts and stops tracking a night, rates it, browses the stored nights and clears them.
Three pieces are modelled:

- `view_model.dfy` (module `ViewModel`): the `SleepTrackerViewModel` class. It holds the
  night in progress ("tonight"), the three one-shot events (navigate to quality, show
  snackbar, navigate to detail) and the button visibility derived from them. On
  construction it recovers tonight from the latest stored night. Each block the view-model
  launches on its coroutine scope is one method call here.
- `database.dfy` (module `Database`): the `SleepNight` record and the data-access object,
  a class whose table is a sequence of rows in insertion order. Keys are generated,
  strictly increasing and never reused. `getTonight` is the row with the highest key.
  `getAllNights` is every row, newest first.
- `adapter.dfy` (module `Adapter`): the displayed list (a header, then one item per
  night), item keys with `Long.MIN_VALUE` reserved for the header, the two view types,
  holder creation and binding, and the diff callback's same-item and same-contents tests.
- `binding.dfy` (module `Binding`): the rating-to-icon mapping and the null guards of
  the three binding adapters, with the view's new content returned as a value.
- `wrappers.dfy` (module `Wrappers`): `Option` for Kotlin's nullable values and `Result`
  for a thrown exception.

`onStopTracking` changes the `SleepNight` object held in `tonight` in place. The only other
reference to that object is the navigate-to-quality event it is then stored in. The model
treats nights as values and gives both slots the stopped night, which is exactly what
that aliasing produces. Nights read from the table are fresh objects, so no other reference
sees the change.

## Model

| member | source | states |
|---|---|---|
| `ViewModel.TonightFrom` | app/main/java/com/example/android/trackmysleepquality/sleeptracker/SleepTrackerViewModel.kt:46-53 | the recovered night is present exactly when the latest night is present and its end equals its start, and then it is that night; a missing or ended night gives null |
| `ViewModel.TonightIsNewestInProgress` | app/main/java/com/example/android/trackmysleepquality/sleeptracker/SleepTrackerViewModel.kt:46-53 | over a table with increasing keys, recovery yields a night exactly when the table is non-empty and its newest row is in progress; that night is a stored row with the highest key |
| `ViewModel.SleepTrackerViewModel.GetTonightFromDatabase` | app/main/java/com/example/android/trackmysleepquality/sleeptracker/SleepTrackerViewModel.kt:46-53 | reading the latest night and nulling it when `end != start` (both sides null-safe) gives the recovery of the table's latest night |
| `ViewModel.SleepTrackerViewModel.constructor` | app/main/java/com/example/android/trackmysleepquality/sleeptracker/SleepTrackerViewModel.kt:37-44 | a new view-model has tonight recovered from the table and all three events unset |
| `ViewModel.SleepTrackerViewModel.InitializeTonight` | app/main/java/com/example/android/trackmysleepquality/sleeptracker/SleepTrackerViewModel.kt:42-44 | sets tonight to the recovery from the table; no event changes |
| `ViewModel.SleepTrackerViewModel.OnStartTracking` | app/main/java/com/example/android/trackmysleepquality/sleeptracker/SleepTrackerViewModel.kt:55-61 | appends exactly one new row (fresh key, start = end = now, unrated) and makes it tonight, whatever tonight was before; no event changes |
| `ViewModel.SleepTrackerViewModel.OnStopTracking` | app/main/java/com/example/android/trackmysleepquality/sleeptracker/SleepTrackerViewModel.kt:66-79 | with tonight null nothing changes; otherwise tonight's night with end = now (key, start and rating kept) is written back through `update` (so it is stored whenever its key is), becomes the navigate-to-quality event and stays in tonight; the other events and key counter are unchanged |
| `ViewModel.SleepTrackerViewModel.OnClear` | app/main/java/com/example/android/trackmysleepquality/sleeptracker/SleepTrackerViewModel.kt:85-91 | the table is empty, tonight is null, the snackbar event is true; the two navigation events are unchanged |
| `ViewModel.SleepTrackerViewModel.DoneNavigating` | app/main/java/com/example/android/trackmysleepquality/sleeptracker/SleepTrackerViewModel.kt:101-103 | resets navigate-to-quality to null and changes nothing else |
| `ViewModel.SleepTrackerViewModel.DoneShowingSnackbar` | app/main/java/com/example/android/trackmysleepquality/sleeptracker/SleepTrackerViewModel.kt:123-125 | resets the snackbar event to false and changes nothing else |
| `ViewModel.SleepTrackerViewModel.OnSleepNightClicked` | app/main/java/com/example/android/trackmysleepquality/sleeptracker/SleepTrackerViewModel.kt:131-133 | sets navigate-to-detail to the clicked key and changes nothing else |
| `ViewModel.SleepTrackerViewModel.OnSleepDetailNavigated` | app/main/java/com/example/android/trackmysleepquality/sleeptracker/SleepTrackerViewModel.kt:134-136 | resets navigate-to-detail to null and changes nothing else |
| `ViewModel.SleepTrackerViewModel.StartButtonVisible` | app/main/java/com/example/android/trackmysleepquality/sleeptracker/SleepTrackerViewModel.kt:108-110 | start is visible exactly when stop is not |
| `ViewModel.SleepTrackerViewModel.StopButtonVisible` | app/main/java/com/example/android/trackmysleepquality/sleeptracker/SleepTrackerViewModel.kt:111-113 | stop is visible exactly while tonight is non-null |
| `ViewModel.SleepTrackerViewModel.ClearButtonVisible` | app/main/java/com/example/android/trackmysleepquality/sleeptracker/SleepTrackerViewModel.kt:114-116 | clear is visible exactly while the table holds a night |
| `ViewModel.SleepTrackerViewModel.ButtonsVisibility` | app/main/java/com/example/android/trackmysleepquality/sleeptracker/SleepTrackerViewModel.kt:108-116 | start is visible exactly when stop is not (tonight null vs. non-null); clear is visible exactly when the table holds a night |
| `ViewModel.StartStopScenario` | app/main/java/com/example/android/trackmysleepquality/sleeptracker/SleepTrackerViewModel.kt:55-79 | start at 1000 then stop at 5000 leave the single row {key 1, 1000, 5000, unrated}, raise it for rating, and a view-model built afterwards on the same table recovers no night |
| `ViewModel.ClearScenario` | app/main/java/com/example/android/trackmysleepquality/sleeptracker/SleepTrackerViewModel.kt:85-91 | clearing three nights leaves no nights; the snackbar event stays true until acknowledged, then is false, and clear is no longer offered |
| `ViewModel.DoubleStartScenario` | app/main/java/com/example/android/trackmysleepquality/sleeptracker/SleepTrackerViewModel.kt:55-61 | two starts in a row store two nights in progress: start itself has no guard |
| `Database.NewNight` | app/main/java/com/example/android/trackmysleepquality/sleeptracker/SleepTrackerViewModel.kt:57 | a new night has no key yet, starts now, is in progress and is unrated |
| `Database.Latest` | app/main/java/com/example/android/trackmysleepquality/sleeptracker/SleepTrackerViewModel.kt:47 | `getTonight` is null exactly on an empty table and otherwise a stored row |
| `Database.LatestHasHighestId` | app/main/java/com/example/android/trackmysleepquality/sleeptracker/SleepTrackerViewModel.kt:47 | the latest night has the highest key in the table |
| `Database.AllNights` | app/main/java/com/example/android/trackmysleepquality/sleeptracker/SleepTrackerViewModel.kt:32 | `getAllNights` lists every row once, in reverse insertion order |
| `ViewModel.SleepTrackerViewModel.Nights` | app/main/java/com/example/android/trackmysleepquality/sleeptracker/SleepTrackerViewModel.kt:32 | the `nights` list has one entry per stored row and starts with the latest night |
| `Database.AllNightsNewestFirst` | app/main/java/com/example/android/trackmysleepquality/sleeptracker/SleepTrackerViewModel.kt:32 | all nights come in strictly decreasing key order, headed by the latest night, and are the same rows as the table |
| `Database.Updated` | app/main/java/com/example/android/trackmysleepquality/sleeptracker/SleepTrackerViewModel.kt:82 | `update` keeps the length and every key; the row with the night's key takes its values and every other row is unchanged |
| `Database.UpdatedReplacesOne` | app/main/java/com/example/android/trackmysleepquality/sleeptracker/SleepTrackerViewModel.kt:82 | with unique keys, updating a stored night replaces exactly that one row |
| `Database.UpdatedStoresNight` | app/main/java/com/example/android/trackmysleepquality/sleeptracker/SleepTrackerViewModel.kt:82 | when a row has the night's key, the night itself is in the table after the update |
| `Database.SleepDatabaseDao.constructor` | app/main/java/com/example/android/trackmysleepquality/sleeptracker/SleepTrackerViewModel.kt:29 | a new table is empty and well formed |
| `Database.SleepDatabaseDao.Insert` | app/main/java/com/example/android/trackmysleepquality/sleeptracker/SleepTrackerViewModel.kt:63 | appends the night under a new key larger than every earlier key; keeps keys increasing and positive |
| `Database.SleepDatabaseDao.Update` | app/main/java/com/example/android/trackmysleepquality/sleeptracker/SleepTrackerViewModel.kt:82 | the table becomes `Updated` of the old table; keys stay well formed |
| `Database.SleepDatabaseDao.GetTonight` | app/main/java/com/example/android/trackmysleepquality/sleeptracker/SleepTrackerViewModel.kt:47 | returns the table's latest night, or null when it is empty |
| `Database.SleepDatabaseDao.Clear` | app/main/java/com/example/android/trackmysleepquality/sleeptracker/SleepTrackerViewModel.kt:93 | the table is empty; the key counter is kept, so keys are not reused |
| `Adapter.HeaderAndItems` | app/main/java/com/example/android/trackmysleepquality/sleeptracker/SleepNightAdapter.kt:42-45 | a null list gives exactly `[Header]`; a list of n nights gives n + 1 items, the header first and item i + 1 wrapping night i |
| `Adapter.HeaderAndItemsShowsList` | app/main/java/com/example/android/trackmysleepquality/sleeptracker/SleepNightAdapter.kt:42-45 | the rows of the built list show exactly the submitted nights in the submitted order (none for a null list) |
| `Adapter.HeaderAndItemsDistinctIds` | app/main/java/com/example/android/trackmysleepquality/sleeptracker/SleepNightAdapter.kt:127-138 | with unique night keys, none equal to `Long.MIN_VALUE`, no two items of the built list share a key |
| `Adapter.TableListDistinctIds` | app/main/java/com/example/android/trackmysleepquality/sleeptracker/SleepNightAdapter.kt:127-138 | the list built from the table's nights never has two items with the same key |
| `Adapter.DataItem.Id` | app/main/java/com/example/android/trackmysleepquality/sleeptracker/SleepNightAdapter.kt:127-138 | the header's key is `Long.MIN_VALUE`; a night item's key is its night's `nightId` |
| `Adapter.AreItemsTheSame` | app/main/java/com/example/android/trackmysleepquality/sleeptracker/SleepNightAdapter.kt:109-111 | two night items are the same item exactly when their nights' keys agree; the header and a night only when that key is `Long.MIN_VALUE` |
| `Adapter.AreContentsTheSame` | app/main/java/com/example/android/trackmysleepquality/sleeptracker/SleepNightAdapter.kt:114-116 | structural equality, which implies the same-item test |
| `Adapter.VersionsOfOneNight` | app/main/java/com/example/android/trackmysleepquality/sleeptracker/SleepNightAdapter.kt:109-116 | two versions of one night are the same item, and have the same contents only when they are equal |
| `Adapter.SameItemProperties` | app/main/java/com/example/android/trackmysleepquality/sleeptracker/SleepNightAdapter.kt:107-138 | same contents implies same item; the header is the same item as a night only when that night's key is `Long.MIN_VALUE` |
| `Adapter.SameItemIsUnique` | app/main/java/com/example/android/trackmysleepquality/sleeptracker/SleepNightAdapter.kt:109-111 | in a list with unique keys, an item matches at most one position by the same-item test |
| `Adapter.OnClick` | app/main/java/com/example/android/trackmysleepquality/sleeptracker/SleepNightAdapter.kt:118-120 | a click reports the key of the clicked night, which is its list item's key |
| `Adapter.ViewHolder.From` | app/main/java/com/example/android/trackmysleepquality/sleeptracker/SleepNightAdapter.kt:97-102 | a new row holder shows no night yet |
| `Adapter.ViewHolder.Bind` | app/main/java/com/example/android/trackmysleepquality/sleeptracker/SleepNightAdapter.kt:85-90 | the holder's binding shows the given night |
| `Adapter.SleepNightAdapter.constructor` | app/main/java/com/example/android/trackmysleepquality/sleeptracker/SleepNightAdapter.kt:25-26 | a new adapter has an empty current list |
| `Adapter.SleepNightAdapter.AddHeaderAndSubmitList` | app/main/java/com/example/android/trackmysleepquality/sleeptracker/SleepNightAdapter.kt:40-50 | the adapter's current list becomes the header followed by the submitted nights |
| `Adapter.SleepNightAdapter.GetItemViewType` | app/main/java/com/example/android/trackmysleepquality/sleeptracker/SleepNightAdapter.kt:75-81 | total over items: type 0 exactly for the header, type 1 exactly for a night |
| `Adapter.SleepNightAdapter.OnCreateViewHolder` | app/main/java/com/example/android/trackmysleepquality/sleeptracker/SleepNightAdapter.kt:28-34 | type 0 gives the header's text holder, type 1 a new unbound row holder, and any other type the unknown-view-type exception |
| `Adapter.SleepNightAdapter.OnBindViewHolder` | app/main/java/com/example/android/trackmysleepquality/sleeptracker/SleepNightAdapter.kt:53-62 | a text holder is left unbound; a row holder is bound to the night at the position, or the cast fails, leaving it unchanged, when the position holds the header |
| `Adapter.SleepNightAdapter.ShowPosition` | app/main/java/com/example/android/trackmysleepquality/sleeptracker/SleepNightAdapter.kt:28-81 | creating the holder for a position's own view type and binding it never fails: the header gets the unbound text holder, a night gets a row holder showing it whose click reports the item's key |
| `Adapter.ShowSubmittedList` | app/main/java/com/example/android/trackmysleepquality/sleeptracker/SleepNightAdapter.kt:40-62 | after submitting a list, position 0 shows the header and position i + 1 shows night i, and clicking it reports that night's key |
| `Binding.SleepImage` | app/main/java/com/example/android/trackmysleepquality/sleeptracker/BindingUtils.kt:35-43 | total over ratings: the active icon exactly for ratings outside 0..5, otherwise the icon depicting that very rating |
| `Binding.RatedIconsDistinct` | app/main/java/com/example/android/trackmysleepquality/sleeptracker/BindingUtils.kt:36-41 | the six ratings 0..5 get six different icons |
| `Binding.DepictedRatingRoundTrip` | app/main/java/com/example/android/trackmysleepquality/sleeptracker/BindingUtils.kt:36-41 | every rated icon is the icon of the rating it depicts |
| `Binding.SetSleepImage` | app/main/java/com/example/android/trackmysleepquality/sleeptracker/BindingUtils.kt:31-46 | no item leaves the image as it was; an item sets exactly `SleepImage` of its rating, the active icon for the unrated -1 |
| `Binding.SetSleepDurationFormatted` | app/main/java/com/example/android/trackmysleepquality/sleeptracker/BindingUtils.kt:13-22 | no item leaves the text as it was; an item sets the duration formatted from its start and end |
| `Binding.SetSleepQualityString` | app/main/java/com/example/android/trackmysleepquality/sleeptracker/BindingUtils.kt:24-29 | no item leaves the text as it was; an item sets the quality string of its rating |

## Left out

- The `SleepNight` entity and the data-access object are outside this model. The record keeps only the four fields the code reads. The table keeps only the five calls the view-model makes, with the behaviour of Room's auto-generated keys: increasing, never reused; latest = highest key; all nights by key descending.
- The defaults of `SleepNight()` (key 0, end equal to start, rating -1) are assumed; the entity class is outside this model.
- `Database.SleepDatabaseDao.Insert`: ignores the key of the night it is given and always generates one. The only caller passes a fresh night whose key is unset.
- Room's SQL, the live observation of `getAllNights`, and the store's failures (no I/O errors are modelled).
- Coroutines: every `viewModelScope.launch` block, and the adapter's background build with its hand-over to the main thread, is one atomic step. Interleavings of two launched blocks are not modelled.
- The system clock: `System.currentTimeMillis()` is the `now` parameter of `OnStartTracking` and `OnStopTracking`.
- `ViewModel.SleepTrackerViewModel.ButtonsVisibility`: clear visibility is `it?.isNotEmpty()`, null before the first list arrives; the model treats the list as always loaded.
- Widths: keys, times and ratings are unbounded integers. Only `Long.MIN_VALUE` is written out, as -2^63. Key overflow is not modelled.
- The "never two nights in progress" guarantee is not claimed. Only the hidden start button protects it; `DoubleStartScenario` shows that start alone does not.
- DiffUtil's diff algorithm, `submitList` animation and RecyclerView itself: only the two callback tests and the adapter's final list are modelled.
- `Adapter.ViewHolder.Bind`: the click listener stored in the binding and `executePendingBindings` are not modelled, only the night shown. The listener's callback is reduced to the key it is handed (`Adapter.OnClick`).
- View inflation (`TextViewHolder.from`, `ViewHolder.from` layouts), drawable resources and the two text formatting functions. Icons are an enumeration, and formatted text is a value recording what it was formatted from.
- The fragment's wiring, navigation, the snackbar and the grid span lookup are not part of this model. The same goes for the database singleton and the rating of a night on the quality screen.
