/**
 * The calendar screen's view model: the secret tap counter that toggles
 * debug mode, the one-shot celebration, and the debug panel's toggle-all
 * actions, which delegate to the store.
 */
module CalendarViewModel {
  import opened Records
  import opened Database

  /** Taps on the version label that toggle debug mode. */
  const SecretTaps := 5

  predicate AllOpened(days: seq<DayRecord>) {
    forall i :: 0 <= i < |days| ==> days[i].isOpened
  }

  predicate AllFavorite(days: seq<DayRecord>) {
    forall i :: 0 <= i < |days| ==> days[i].isFavorite
  }

  /** The view model's own fields. */
  datatype State = State(isDebugMode: bool, showCelebration: bool, tapCount: int, hasShownCelebration: bool)

  const Initial := State(false, false, 0, false)

  /** The counter stays below the threshold, and a shown celebration is remembered. */
  predicate Coherent(st: State) {
    0 <= st.tapCount < SecretTaps && (st.showCelebration ==> st.hasShownCelebration)
  }

  function AfterVersionTap(st: State): State {
    var count := st.tapCount + 1;
    if count >= SecretTaps then st.(isDebugMode := !st.isDebugMode, tapCount := 0)
    else st.(tapCount := count)
  }

  function AfterCheckCelebration(st: State, days: seq<DayRecord>): State {
    if AllOpened(days) && !st.hasShownCelebration && days != [] then
      st.(hasShownCelebration := true, showCelebration := true)
    else st
  }

  function AfterDismissCelebration(st: State): State {
    st.(showCelebration := false)
  }

  /** toggleAllOpen on the store's contents: reset when all are opened, open all otherwise. */
  function ToggledOpen(days: seq<DayRecord>, now: Time): seq<DayRecord> {
    if AllOpened(days) then Reset(days) else Opened(days, now)
  }

  /** toggleAllFavorite on the store's contents. */
  function ToggledFavorite(days: seq<DayRecord>): seq<DayRecord> {
    Favorited(days, !AllFavorite(days))
  }

  // ---------------------------------------------------------------------
  // The secret tap counter
  // ---------------------------------------------------------------------

  /** The state after n taps on the version label. */
  function Taps(st: State, n: nat): State {
    if n == 0 then st else AfterVersionTap(Taps(st, n - 1))
  }

  lemma VersionTapKeepsCoherent(st: State)
    requires Coherent(st)
    ensures Coherent(AfterVersionTap(st))
    ensures AfterVersionTap(st).showCelebration == st.showCelebration
    ensures AfterVersionTap(st).hasShownCelebration == st.hasShownCelebration
  {
  }

  /** After n taps from a fresh view model the counter is n mod 5 and debug mode is on after an odd number of full rounds. */
  lemma {:induction false} TapsFromInitial(n: nat)
    ensures Taps(Initial, n) == State((n / SecretTaps) % 2 == 1, false, n % SecretTaps, false)
  {
    if n > 0 {
      TapsFromInitial(n - 1);
      var q, r := (n - 1) / SecretTaps, (n - 1) % SecretTaps;
      assert n - 1 == SecretTaps * q + r;
      if r == SecretTaps - 1 {
        assert n == SecretTaps * (q + 1);
        assert n / SecretTaps == q + 1 && n % SecretTaps == 0;
      } else {
        assert n == SecretTaps * q + (r + 1);
        assert n / SecretTaps == q && n % SecretTaps == r + 1;
      }
    }
  }

  /** Debug mode changes exactly on the 5th, 10th, ... tap. */
  lemma DebugTogglesOnFifthTaps(n: nat)
    ensures Taps(Initial, n + 1).isDebugMode != Taps(Initial, n).isDebugMode <==> (n + 1) % SecretTaps == 0
  {
    TapsFromInitial(n);
    TapsFromInitial(n + 1);
  }

  // ---------------------------------------------------------------------
  // The celebration
  // ---------------------------------------------------------------------

  /** checkCelebration raises the celebration exactly when the list is non-empty, fully opened and it was never shown. */
  lemma CheckCelebrationRaises(st: State, days: seq<DayRecord>)
    requires Coherent(st)
    ensures Coherent(AfterCheckCelebration(st, days))
    ensures AfterCheckCelebration(st, days).showCelebration && !st.showCelebration
        <==> days != [] && AllOpened(days) && !st.hasShownCelebration
    ensures AfterCheckCelebration(st, days).isDebugMode == st.isDebugMode
    ensures AfterCheckCelebration(st, days).tapCount == st.tapCount
  {
  }

  /** Everything that can happen to the view model's fields. */
  datatype Event = VersionTapped | CelebrationChecked(days: seq<DayRecord>) | CelebrationDismissed

  function Step(st: State, e: Event): State {
    match e
    case VersionTapped => AfterVersionTap(st)
    case CelebrationChecked(days) => AfterCheckCelebration(st, days)
    case CelebrationDismissed => AfterDismissCelebration(st)
  }

  function Run(st: State, events: seq<Event>): State
    decreases |events|
  {
    if events == [] then st else Run(Step(st, events[0]), events[1..])
  }

  /** An event that presents the celebration. */
  predicate Raises(st: State, e: Event) {
    !st.showCelebration && Step(st, e).showCelebration
  }

  /** The number of times the celebration is presented along a run. */
  function RaiseCount(st: State, events: seq<Event>): nat
    decreases |events|
  {
    if events == [] then 0
    else (if Raises(st, events[0]) then 1 else 0) + RaiseCount(Step(st, events[0]), events[1..])
  }

  /** Once the celebration has been shown the flag stays set and no event raises it again. */
  lemma ShownIsSticky(st: State, e: Event)
    requires Coherent(st)
    ensures Coherent(Step(st, e))
    ensures st.hasShownCelebration ==> Step(st, e).hasShownCelebration && !Raises(st, e)
    ensures Raises(st, e) ==> !st.hasShownCelebration && Step(st, e).hasShownCelebration
  {
  }

  /** Along any run the celebration is presented at most once, and never again once it has been shown. */
  lemma {:induction false} CelebrationAtMostOnce(st: State, events: seq<Event>)
    requires Coherent(st)
    ensures RaiseCount(st, events) <= if st.hasShownCelebration then 0 else 1
    ensures st.hasShownCelebration ==> Run(st, events).hasShownCelebration
    decreases |events|
  {
    if events != [] {
      ShownIsSticky(st, events[0]);
      CelebrationAtMostOnce(Step(st, events[0]), events[1..]);
    }
  }

  // ---------------------------------------------------------------------
  // The toggle-all actions
  // ---------------------------------------------------------------------

  /** allOpened and allFavorite hold of an empty list. */
  lemma AllHoldOfEmpty()
    ensures AllOpened([]) && AllFavorite([])
  {
  }

  /** On a non-empty store toggleAllOpen flips allOpened. */
  lemma ToggleAllOpenFlips(days: seq<DayRecord>, now: Time)
    requires days != []
    ensures AllOpened(ToggledOpen(days, now)) == !AllOpened(days)
  {
    if AllOpened(days) {
      assert !ToggledOpen(days, now)[0].isOpened;
    }
  }

  /** On a non-empty store toggleAllFavorite flips allFavorite. */
  lemma ToggleAllFavoriteFlips(days: seq<DayRecord>)
    requires days != []
    ensures AllFavorite(ToggledFavorite(days)) == !AllFavorite(days)
  {
    if AllFavorite(days) {
      assert !ToggledFavorite(days)[0].isFavorite;
    }
  }

  /** allOpened and allFavorite do not depend on the order of the list. */
  lemma {:induction false} AllIgnoreOrder(a: seq<DayRecord>, b: seq<DayRecord>)
    requires multiset(a) == multiset(b)
    ensures AllOpened(a) == AllOpened(b) && AllFavorite(a) == AllFavorite(b)
  {
    forall i | 0 <= i < |a| ensures a[i] in b {
      assert a[i] in multiset(a);
    }
    forall j | 0 <= j < |b| ensures b[j] in a {
      assert b[j] in multiset(b);
    }
  }

  class AdventCalendarViewModel {
    const database: DatabaseManager
    var isDebugMode: bool
    var showCelebration: bool
    var tapCount: int
    var hasShownCelebration: bool

    function Current(): State
      reads this
    {
      State(isDebugMode, showCelebration, tapCount, hasShownCelebration)
    }

    ghost predicate Valid()
      reads this
    {
      Coherent(Current())
    }

    constructor (database: DatabaseManager)
      ensures Valid() && Current() == Initial && this.database == database
    {
      this.database := database;
      isDebugMode := false;
      showCelebration := false;
      tapCount := 0;
      hasShownCelebration := false;
    }

    /** handleVersionTap */
    method HandleVersionTap()
      requires Valid()
      modifies this
      ensures Valid() && Current() == AfterVersionTap(old(Current()))
    {
      tapCount := tapCount + 1;
      if tapCount >= SecretTaps {
        isDebugMode := !isDebugMode;
        tapCount := 0;
      }
    }

    /** checkCelebration */
    method CheckCelebration(days: seq<DayRecord>)
      requires Valid()
      modifies this
      ensures Valid() && Current() == AfterCheckCelebration(old(Current()), days)
      ensures old(hasShownCelebration) ==> hasShownCelebration && showCelebration == old(showCelebration)
    {
      if AllOpened(days) && !hasShownCelebration && days != [] {
        hasShownCelebration := true;
        showCelebration := true;
      }
    }

    /** dismissCelebration: only the presented flag is cleared. */
    method DismissCelebration()
      requires Valid()
      modifies this
      ensures Valid() && !showCelebration
      ensures isDebugMode == old(isDebugMode) && tapCount == old(tapCount)
      ensures hasShownCelebration == old(hasShownCelebration)
    {
      showCelebration := false;
    }

    /** toggleAllOpen, given the list the screen shows: the store's contents sorted by identifier. */
    method ToggleAllOpen(days: seq<DayRecord>, now: Time)
      requires database.Valid() && multiset(days) == multiset(database.Contents())
      modifies database.records
      ensures database.records == old(database.records)
      ensures database.Contents() == ToggledOpen(old(database.Contents()), now)
    {
      AllIgnoreOrder(days, database.Contents());
      if AllOpened(days) {
        database.ResetAllDays();
      } else {
        database.OpenAllDays(now);
      }
    }

    /** toggleAllFavorite, given the list the screen shows: the store's contents sorted by identifier. */
    method ToggleAllFavorite(days: seq<DayRecord>)
      requires database.Valid() && multiset(days) == multiset(database.Contents())
      modifies database.records
      ensures database.records == old(database.records)
      ensures database.Contents() == ToggledFavorite(old(database.Contents()))
    {
      AllIgnoreOrder(days, database.Contents());
      if AllFavorite(days) {
        database.UnfavoriteAll();
      } else {
        database.FavoriteAll();
      }
    }
  }
}
