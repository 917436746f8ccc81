/** The calendar cell of one day: the date gate, the glow, and what a tap does. */
module DayCell {
  import opened Records
  import opened Routing

  /** The month and day-of-month components of the current date; either may be absent. */
  datatype DateParts = DateParts(month: Option<int>, dayOfMonth: Option<int>)

  const December := 12

  /** A day can be opened in debug mode, or in December from its own day-of-month on (a missing day-of-month counts as 0). */
  predicate CanOpen(isDebugMode: bool, today: DateParts, day: int) {
    isDebugMode
    || (today.month == Some(December)
        && (match today.dayOfMonth case Some(d) => d case None => 0) >= day)
  }

  /** The cell of the current December day. */
  predicate IsToday(today: DateParts, day: int) {
    today.month == Some(December) && today.dayOfMonth == Some(day)
  }

  /** Today's cell glows until it is opened. */
  predicate ShouldGlow(today: DateParts, r: DayRecord) {
    IsToday(today, r.day) && !r.isOpened
  }

  /** In debug mode every day can be opened, whatever the date. */
  lemma DebugOpensEveryDay(today: DateParts, day: int)
    ensures CanOpen(true, today, day)
  {
  }

  /** Outside December, and not in debug mode, no day can be opened. */
  lemma ClosedOutsideDecember(today: DateParts, day: int)
    requires today.month != Some(December)
    ensures !CanOpen(false, today, day)
  {
  }

  /** In December, and not in debug mode, a day can be opened exactly when its day-of-month has come. */
  lemma DecemberGate(dayOfMonth: int, day: int)
    ensures CanOpen(false, DateParts(Some(December), Some(dayOfMonth)), day) <==> dayOfMonth >= day
  {
  }

  /** Without a day-of-month component only days numbered 0 or below pass the December gate. */
  lemma DecemberGateWithoutDay(day: int)
    ensures CanOpen(false, DateParts(Some(December), None), day) <==> day <= 0
  {
  }

  /** The gate is downward closed: if a day can be opened, so can every earlier one. */
  lemma GateDownwardClosed(isDebugMode: bool, today: DateParts, day: int, earlier: int)
    requires earlier <= day
    requires CanOpen(isDebugMode, today, day)
    ensures CanOpen(isDebugMode, today, earlier)
  {
  }

  /** Today's cell can always be opened, in or out of debug mode, and there is at most one of it. */
  lemma TodayCanOpen(isDebugMode: bool, today: DateParts, day: int, other: int)
    requires IsToday(today, day)
    ensures CanOpen(isDebugMode, today, day)
    ensures IsToday(today, other) <==> other == day
  {
  }

  /** A glowing cell is today's closed cell, and it can be opened. */
  lemma GlowMeansTodayClosed(isDebugMode: bool, today: DateParts, r: DayRecord)
    ensures ShouldGlow(today, r) <==> today.month == Some(December) && today.dayOfMonth == Some(r.day) && !r.isOpened
    ensures ShouldGlow(today, r) ==> CanOpen(isDebugMode, today, r.day)
  {
  }

  /**
   * The cell view with its view model: it shows one record, knows whether
   * debug mode is on, pushes onto the shared router, and owns the flag that
   * presents the gift animation.
   */
  class AdventDayCell {
    const day: AdventDay
    const isDebugMode: bool
    const router: Router
    var showGiftAnimation: bool

    constructor (day: AdventDay, router: Router, isDebugMode: bool := false)
      ensures this.day == day && this.router == router && this.isDebugMode == isDebugMode
      ensures !showGiftAnimation
    {
      this.day := day;
      this.router := router;
      this.isDebugMode := isDebugMode;
      showGiftAnimation := false;
    }

    /**
     * The button action; the button is disabled unless the day can be opened.
     * A closed day is opened now and the gift animation is presented; an
     * opened day keeps its open time and its video is pushed at once.
     */
    method Tap(today: DateParts, now: Time)
      requires CanOpen(isDebugMode, today, day.day)
      modifies this, day, router
      ensures day.isOpened && day.isFavorite == old(day.isFavorite)
      ensures day.openedAt == if old(day.isOpened) then old(day.openedAt) else Some(now)
      ensures showGiftAnimation == if old(day.isOpened) then old(showGiftAnimation) else true
      ensures router.Current() ==
        if old(day.isOpened) then AfterPush(old(router.Current()), Video(day), Calendar)
        else old(router.Current())
    {
      var wasOpened := day.isOpened;
      if !day.isOpened {
        day.isOpened := true;
        day.openedAt := Some(now);
      }
      if wasOpened {
        router.Push(Video(day), Calendar);
      } else {
        showGiftAnimation := true;
      }
    }

    /** The gift animation finished: it is dismissed and the day's video is pushed on the calendar stack. */
    method GiftOpeningFinished()
      modifies this, router
      ensures !showGiftAnimation
      ensures router.Current() == AfterPush(old(router.Current()), Video(day), Calendar)
    {
      showGiftAnimation := false;
      router.Push(Video(day), Calendar);
    }
  }
}
