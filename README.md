# Advent calendar: a Dafny model of its rules

The app shows 25 day cells that unlock through December. Opening a cell plays a gift
animation and then the day's video. Days can be marked as favorites, and a celebration
appears once every day is open. This project models the app's deterministic rules and
proves properties about them:

- **`Records`** (`advent_day.dfy`): the day record. `AdventDay` is a class because the
  store, the calendar cell and the player all share one record object and write its flags
  in place. `DayRecord` is the value of a record at one moment. `Consistent` is the invariant
  "opened exactly when an open time is stored".
- **`Database`** (`database_manager.dfy`): the record store (`DatabaseManager.records`, a
  sequence of record objects) and its bulk operations. Each operation is a loop that writes
  record fields in place. Its postcondition equates the new contents with a function of the
  old contents (`Opened`, `Reset`, `Favorited`, `Marked`, `Seeded`), and lemmas state what
  those functions promise. The identifier is a unique attribute, so inserting a record with
  an identifier already in the store replaces the stored record (`Upsert`).
- **`Routing`** (`router.dfy`): the router. It has two independent navigation stacks, one
  for the calendar tab and one for the favorites tab, with push, pop and pop-to-root.
- **`DayCell`** (`advent_day_cell.dfy`): the date gate (`CanOpen`), today's cell
  (`IsToday`), the glow (`ShouldGlow`), the cell's tap action and the push that follows the
  gift animation. The current date is given by its month and day-of-month components. Either
  component may be absent, because the source reads both as optionals (`components.day ?? 0`).
- **`CalendarViewModel`** (`advent_calendar_view_model.dfy`): the calendar view model. It
  holds the five-tap secret counter that toggles debug mode, the one-shot celebration, and
  the toggle-all actions, which call the store. A run of events (`Run`, `RaiseCount`) is used
  to state that the celebration is shown at most once.
- **`Player`** (`video_player_view.dfy`): the video player screen. This covers the player
  states, the centre button, load outcomes as events, and the controls' auto-hide tasks,
  each with a number and a cancelled flag. It also covers the favorite and title toggles.

Inputs that come from the platform are parameters:

- the current date components (`DateParts`);
- the current time `now` (`Time`, an opaque instant);
- the decoded video list (`seq<VideoData>`, empty when the bundled file is missing or malformed);
- whether the video URL parses (`urlIsValid`, fixed per player screen because the record's URL is constant);
- the outcome of the asynchronous playability check (`LoadOutcome`);
- which auto-hide task's delay has ended (`HideTimerFired(t)`).

The view model's `days` argument is the list the calendar shows: the store's records sorted by identifier. The model keeps the store in insertion order and asks only that `days` holds the same records in some order (`multiset(days) == multiset(database.Contents())`).

The consistency invariant is kept by every bulk operation (`BulkKeepsConsistent`). The
record initialiser does not enforce it: it accepts any flags. So "every record has an open
time after `openAllDays`" holds only for stores that were consistent before (`OpenedOpensAll`).
A record marked opened without a time keeps no time.

## Model

| member | source | states |
|---|---|---|
| `Records.AdventDay.constructor` | Demo/Models/AdventDay.swift:20-27 | the new record holds exactly the given identifier, URL, title and flags; with the defaults it is closed, has no open time and is not a favorite, and the title is empty |
| `Records.UnopenedIsConsistent` | Demo/Models/AdventDay.swift:20-26 | a record with default flags satisfies the opened-iff-time invariant |
| `Database.UpsertKeepsKey` | Demo/Models/AdventDay.swift:13 | inserting under the unique identifier keeps identifiers unique, adds exactly the new identifier, appends when it is new, and keeps every other stored record |
| `Database.OpenedOpensAll` | Demo/Services/DatabaseManager.swift:48-60 | after openAllDays every record is opened, identifiers are unchanged, and every record has an open time when the store was consistent |
| `Database.OpenedKeepsTheRest` | Demo/Services/DatabaseManager.swift:53-58 | openAllDays writes only the opening fields, leaves already opened records (their open time included) unchanged, and gives closed ones the current time |
| `Database.OpenedIdempotent` | Demo/Services/DatabaseManager.swift:53-58 | a second openAllDays, at any time, changes nothing |
| `Database.ResetClosesAll` | Demo/Services/DatabaseManager.swift:62-72 | after resetAllDays no record is opened or has an open time; favorites, titles, URLs and identifiers are untouched; the invariant holds afterwards |
| `Database.FavoritedSetsFlag` | Demo/Services/DatabaseManager.swift:74-94 | favoriteAll / unfavoriteAll set the favorite flag of every record to true / false and change no other field |
| `Database.MarkedSelects` | Demo/Services/DatabaseManager.swift:96-108 | markFavorites opens, times now and favorites exactly the records whose identifier is requested, even already opened ones; all others are unchanged |
| `Database.BulkKeepsConsistent` | Demo/Services/DatabaseManager.swift:48-108 | every bulk operation preserves "opened iff an open time is stored" |
| `Database.BulkOnEmpty` | Demo/Services/DatabaseManager.swift:48-108 | on an empty store every bulk operation leaves it empty |
| `Database.SeededIsKeyed` | Demo/Services/DatabaseManager.swift:34-43 | seeding gives unique identifiers, exactly the identifiers of the loaded list, at most one record per entry, each built from an entry with default flags, so the seeded store meets the opened-iff-time invariant |
| `Database.SeededDistinct` | Demo/Services/DatabaseManager.swift:34-43 | with distinct loaded identifiers, seeding inserts one record per entry, in order |
| `Database.DatabaseManager.constructor` | Demo/Services/DatabaseManager.swift:16-25 | a new in-memory store is empty |
| `Database.OpenAllAfterSeeding` | DemoTests/DatabaseManagerTests.swift:36-50 | a new store seeded from a list and then fully opened holds exactly the loaded identifiers, every record opened and with an open time |
| `Database.DatabaseManager.Insert` | Demo/Services/DatabaseManager.swift:41 | insertion is an upsert on the identifier and keeps identifiers unique; afterwards the store holds the inserted object and otherwise only objects it held before |
| `Database.DatabaseManager.SeedIfNeeded` | Demo/Services/DatabaseManager.swift:27-44 | a non-empty store is left as it is; an empty one ends up holding the seeded records, all newly allocated objects, which callers may then change; identifiers stay unique |
| `Database.DatabaseManager.OpenAllDays` | Demo/Services/DatabaseManager.swift:48-60 | the same record objects, their values now those of `Opened` of the old values |
| `Database.DatabaseManager.ResetAllDays` | Demo/Services/DatabaseManager.swift:62-72 | the same record objects, their values now those of `Reset` of the old values |
| `Database.DatabaseManager.FavoriteAll` | Demo/Services/DatabaseManager.swift:74-83 | the same record objects, all now favorites, nothing else changed |
| `Database.DatabaseManager.UnfavoriteAll` | Demo/Services/DatabaseManager.swift:85-94 | the same record objects, none now a favorite, nothing else changed |
| `Database.DatabaseManager.MarkFavorites` | Demo/Services/DatabaseManager.swift:96-108 | the same record objects, their values now those of `Marked` (default identifiers 1, 3, 6, 12, 25) |
| `Routing.PushAppends` | Demo/Services/Router.swift:20-27 | push appends to the chosen tab's stack and leaves the other unchanged |
| `Routing.PushesAppend` | Demo/Services/Router.swift:20-27 | k pushes append the k destinations in order, lengthening the stack by k, and leave the other stack unchanged |
| `Routing.PopRemovesLast` | Demo/Services/Router.swift:29-40 | pop on a non-empty stack removes exactly its last destination, on an empty one changes nothing, and never touches the other stack |
| `Routing.PopUndoesPush` | Demo/Services/Router.swift:20-40 | pop right after push on the same tab restores both stacks |
| `Routing.PopToRootClears` | Demo/Services/Router.swift:42-49 | popToRoot empties that tab's stack and leaves the other unchanged |
| `Routing.Router.constructor` | Demo/Services/Router.swift:17-18 | both stacks start empty |
| `Routing.Router.Push` | Demo/Services/Router.swift:20-27 | the stacks become `AfterPush` of the old stacks |
| `Routing.Router.Pop` | Demo/Services/Router.swift:29-40 | the stacks become `AfterPop` of the old stacks |
| `Routing.Router.PopToRoot` | Demo/Services/Router.swift:42-49 | the stacks become `AfterPopToRoot` of the old stacks |
| `DayCell.CanOpen` | Demo/Views/Calendar/AdventDayCell.swift:30-34 | a day can be opened in debug mode, or in December once the day-of-month (0 when absent) has reached its identifier |
| `DayCell.IsToday` | Demo/Views/Calendar/AdventDayCell.swift:36-39 | a cell is today's when the month is December and the day-of-month is its identifier |
| `DayCell.ShouldGlow` | Demo/Views/Calendar/AdventDayCell.swift:57 | today's cell glows while it is not opened |
| `DayCell.DebugOpensEveryDay` | Demo/Views/Calendar/AdventDayCell.swift:31 | in debug mode every day can be opened on any date |
| `DayCell.ClosedOutsideDecember` | Demo/Views/Calendar/AdventDayCell.swift:33 | outside December, and not in debug mode, no day can be opened |
| `DayCell.DecemberGate` | Demo/Views/Calendar/AdventDayCell.swift:33 | in December, not in debug mode, a day can be opened iff the day-of-month is at least its identifier |
| `DayCell.DecemberGateWithoutDay` | Demo/Views/Calendar/AdventDayCell.swift:33 | a missing day-of-month counts as 0 |
| `DayCell.GateDownwardClosed` | Demo/Views/Calendar/AdventDayCell.swift:30-34 | if a day can be opened, every day with a smaller or equal identifier can too |
| `DayCell.TodayCanOpen` | Demo/Views/Calendar/AdventDayCell.swift:36-39 | today's cell can be opened whatever the debug flag, and only one identifier is today |
| `DayCell.GlowMeansTodayClosed` | Demo/Views/Calendar/AdventDayCell.swift:57 | a cell glows iff it is December, its identifier is the day-of-month and it is not opened; a glowing cell can be opened |
| `DayCell.AdventDayCell.constructor` | Demo/Views/Calendar/AdventDayCell.swift:50-52 | a new cell holds its record and debug flag and does not present the animation |
| `DayCell.AdventDayCell.Tap` | Demo/Views/Calendar/AdventDayCell.swift:60-70 | the record ends up opened with its favorite flag unchanged; a closed record gets the current time and the animation is presented with no push; an opened record keeps its time and exactly one video destination is pushed on the calendar stack |
| `DayCell.AdventDayCell.GiftOpeningFinished` | Demo/Views/Calendar/AdventDayCell.swift:104-108 | the animation is dismissed and the day's video is pushed on the calendar stack |
| `CalendarViewModel.AllOpened` | Demo/Views/Calendar/AdventCalendarViewModel.swift:25-27 | every shown day is opened (true of the empty list) |
| `CalendarViewModel.AllFavorite` | Demo/Views/Calendar/AdventCalendarViewModel.swift:29-31 | every shown day is a favorite (true of the empty list) |
| `CalendarViewModel.AllIgnoreOrder` | Demo/Views/Calendar/AdventCalendarView.swift:13 | allOpened and allFavorite give the same answer for the sorted list the calendar shows as for the store in any other order |
| `CalendarViewModel.AllHoldOfEmpty` | Demo/Views/Calendar/AdventCalendarViewModel.swift:25-31 | allOpened and allFavorite hold of an empty list |
| `CalendarViewModel.VersionTapKeepsCoherent` | Demo/Views/Calendar/AdventCalendarViewModel.swift:35-41 | a version tap keeps the counter in 0..4 and does not touch the celebration flags |
| `CalendarViewModel.TapsFromInitial` | Demo/Views/Calendar/AdventCalendarViewModel.swift:35-41 | after n taps from a fresh view model the counter is n mod 5 and debug mode is on iff (n / 5) is odd |
| `CalendarViewModel.DebugTogglesOnFifthTaps` | Demo/Views/Calendar/AdventCalendarViewModel.swift:35-41 | debug mode changes on a tap iff it is the 5th, 10th, ... tap |
| `CalendarViewModel.CheckCelebrationRaises` | Demo/Views/Calendar/AdventCalendarViewModel.swift:59-64 | checkCelebration raises the celebration iff the list is non-empty and fully opened and it was never shown; debug mode and counter are untouched |
| `CalendarViewModel.ShownIsSticky` | Demo/Views/Calendar/AdventCalendarViewModel.swift:59-68 | once shown, the celebration stays remembered and no event raises it again; any raise records that it was shown |
| `CalendarViewModel.CelebrationAtMostOnce` | Demo/Views/Calendar/AdventCalendarViewModel.swift:59-68 | along any run of taps, checks and dismissals the celebration is presented at most once, and never after it has been shown |
| `CalendarViewModel.ToggleAllOpenFlips` | Demo/Views/Calendar/AdventCalendarViewModel.swift:43-49 | on a non-empty store toggleAllOpen flips allOpened |
| `CalendarViewModel.ToggleAllFavoriteFlips` | Demo/Views/Calendar/AdventCalendarViewModel.swift:51-57 | on a non-empty store toggleAllFavorite flips allFavorite |
| `CalendarViewModel.AdventCalendarViewModel.constructor` | Demo/Views/Calendar/AdventCalendarViewModel.swift:18-21 | debug mode off, no celebration, counter 0, never shown |
| `CalendarViewModel.AdventCalendarViewModel.HandleVersionTap` | Demo/Views/Calendar/AdventCalendarViewModel.swift:35-41 | the fields become `AfterVersionTap` of the old fields, keeping the counter in range |
| `CalendarViewModel.AdventCalendarViewModel.CheckCelebration` | Demo/Views/Calendar/AdventCalendarViewModel.swift:59-64 | the fields become `AfterCheckCelebration`; once shown, later checks change nothing |
| `CalendarViewModel.AdventCalendarViewModel.DismissCelebration` | Demo/Views/Calendar/AdventCalendarViewModel.swift:66-68 | the celebration is no longer presented and no other field changes |
| `CalendarViewModel.AdventCalendarViewModel.ToggleAllOpen` | Demo/Views/Calendar/AdventCalendarViewModel.swift:43-49 | the store's contents become `ToggledOpen` of the old contents: reset if all were opened, otherwise all opened; the shown list may hold the records in any order |
| `CalendarViewModel.AdventCalendarViewModel.ToggleAllFavorite` | Demo/Views/Calendar/AdventCalendarViewModel.swift:51-57 | the store's contents become `ToggledFavorite` of the old contents: unfavorited if all were favorites, otherwise all favorites; the shown list may hold the records in any order |
| `Player.LoadedState` | Demo/Views/Player/VideoPlayerView.swift:189-199 | the state a finished load leaves: playing, or the not-playable or connection-failed error |
| `Player.LoadOutcomes` | Demo/Views/Player/VideoPlayerView.swift:189-199 | a finished load gives playing iff the video is playable; otherwise an error with the not-playable or connection-failed text |
| `Player.VideoPlayerView.IsPlaying` | Demo/Views/Player/VideoPlayerView.swift:28 | the player is playing exactly when its state is `Playing` |
| `Player.VideoPlayerView.CenterButtonEnabled` | Demo/Views/Player/VideoPlayerView.swift:91 | the centre button is enabled except while loading |
| `Player.VideoPlayerView.constructor` | Demo/Views/Player/VideoPlayerView.swift:22-26 | loading, controls and title shown, no player, no hide task; whether the record's URL parses is fixed for the screen |
| `Player.VideoPlayerView.ScheduleHideControls` | Demo/Views/Player/VideoPlayerView.swift:226-235 | the old task is cancelled and a new live task becomes current; nothing else changes |
| `Player.VideoPlayerView.CancelControlsTask` | Demo/Views/Player/VideoPlayerView.swift:216 | the current task is cancelled, so no task is live |
| `Player.VideoPlayerView.HideTimerFired` | Demo/Views/Player/VideoPlayerView.swift:228-234 | the controls are hidden only if that task is live and the state is playing; the player state never changes; only the current task can be live |
| `Player.VideoPlayerView.SetupPlayer` | Demo/Views/Player/VideoPlayerView.swift:176-186 | an invalid URL gives the invalid-URL error; a valid one gives loading, a player and one more pending load |
| `Player.VideoPlayerView.LoadFinished` | Demo/Views/Player/VideoPlayerView.swift:187-200 | the state becomes the outcome's state; a playable video also schedules a new hide task |
| `Player.VideoPlayerView.CenterButtonTap` | Demo/Views/Player/VideoPlayerView.swift:209-224 | while loading (the button disabled) nothing changes; playing: paused and no task live; paused: playing and a new live task replacing every earlier one; error: setup runs again (loading with a player and one more pending load, or the invalid-URL error); the player is kept in the first three cases and the controls and title never change |
| `Player.VideoPlayerView.BackgroundTap` | Demo/Views/Player/VideoPlayerView.swift:56-67 | the controls are shown and a new hide task replaces every earlier one; the player, its state and the pending loads are unchanged |
| `Player.VideoPlayerView.ControlsTap` | Demo/Views/Player/VideoPlayerView.swift:81 | a tap on the controls makes a new live hide task replacing every earlier one; the player, its state, the pending loads, the controls and the title are unchanged |
| `Player.VideoPlayerView.FavoriteTap` | Demo/Views/Player/VideoPlayerView.swift:136-140 | the record's favorite flag is negated and its opening fields are unchanged, so two taps restore it |
| `Player.VideoPlayerView.TitleTap` | Demo/Views/Player/VideoPlayerView.swift:150-154 | whether the title is shown is negated and nothing else changes, so two taps restore it |
| `Player.VideoPlayerView.Cleanup` | Demo/Views/Player/VideoPlayerView.swift:237-241 | the hide task is cancelled and the player is released; the task numbering, the player state and the pending loads are kept, so a load already started may still finish |

## Left out

- Rendering, animation and layout: the gift-opening, celebration and banner views, the glow effect, the debug panel, tabs, themes, colours, fonts and patterns. They are presentation.
- Persistence plumbing: the model container, fetch descriptors, predicates, `save` and the early returns when a fetch fails. The store is the sequence of records it holds. A failed count in `seedIfNeeded`, which reads as 0, is not modelled.
- Decoding of the bundled video list (file lookup, JSON). The decoded list is an input; when the file is missing or malformed it is empty.
- The date provider, the calendar and `Date()`, and the dependency-injection plumbing. The date is given as its month and day components, and the current time as a parameter.
- The platform player: playback itself, the loop that replays at the end of the video, and the view controller wrapper. Asynchronous results arrive as events (`LoadFinished`, `HideTimerFired`).
- The hit-testing and disabled state of the controls overlay, and the order in which the framework runs a button action and the overlay's simultaneous tap. `CenterButtonEnabled` states when the centre button is enabled; `CenterButtonTap` changes nothing when it is not. `Tap` requires `CanOpen`, because the cell button is disabled otherwise.
- `AdventDayCellViewModel` and the cell view are modelled as one class (`AdventDayCell`). The view model only holds the record and the debug flag, and the gate and glow are functions of them.
- Database.DatabaseManager.OpenAllDays: one `now` is used for every record written in one call. The source reads the clock once per record.
- Database.DatabaseManager.MarkFavorites: one `now` is used for every record written in one call. The source reads the clock once per record. The model also loops over all records and tests membership, where the source fetches the matching records first. The resulting record values are the same up to the clock reads, and the fetch order is not modelled.
- Player.VideoPlayerView.HideTimerFired: a task's delay may be reported more than once. Repeating it has no further effect, so the model does not enforce once.
- Superseded copies of the player, cell, calendar, favorites and app files, which the reorganised files replace. They differ in places. The old gate compares the current date with December d of the current year. The old celebration also needs exactly 25 records.
