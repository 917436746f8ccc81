/** The persisted day record of the advent calendar and its value snapshot. */
module Records {

  datatype Option<T> = None | Some(value: T)

  /** An instant as produced by the clock; only its identity matters here. */
  type Time = int

  /** The value of one day record at some moment. */
  datatype DayRecord = DayRecord(
    day: int,
    videoURL: string,
    title: string,
    isOpened: bool,
    openedAt: Option<Time>,
    isFavorite: bool)

  /** The record invariant every bulk operation keeps: opened exactly when a time is stored. */
  predicate Consistent(r: DayRecord) {
    r.isOpened <==> r.openedAt.Some?
  }

  /** A record as first inserted: every flag at its default. */
  predicate Unopened(r: DayRecord) {
    !r.isOpened && r.openedAt == None && !r.isFavorite
  }

  lemma UnopenedIsConsistent(r: DayRecord)
    requires Unopened(r)
    ensures Consistent(r)
  {
  }

  /**
   * The mutable day record. The identifier, video URL and title are never
   * written after construction, so they are constants; the three flags are
   * written in place by the calendar cell, the player and the store.
   */
  class AdventDay {
    const day: int
    const videoURL: string
    const title: string
    var isOpened: bool
    var openedAt: Option<Time>
    var isFavorite: bool

    constructor (day: int, videoURL: string, title: string := "",
                 isOpened: bool := false, openedAt: Option<Time> := None, isFavorite: bool := false)
      ensures Snapshot() == DayRecord(day, videoURL, title, isOpened, openedAt, isFavorite)
    {
      this.day := day;
      this.videoURL := videoURL;
      this.title := title;
      this.isOpened := isOpened;
      this.openedAt := openedAt;
      this.isFavorite := isFavorite;
    }

    /** The record's current value. */
    function Snapshot(): DayRecord
      reads this
    {
      DayRecord(day, videoURL, title, isOpened, openedAt, isFavorite)
    }
  }
}
