/**
 * The record store and its bulk operations. Every operation fetches all
 * records (or those with the requested identifiers) and writes some of
 * their flags in place; seeding inserts one record per loaded video entry.
 */
module Database {
  import opened Records

  /** One entry of the bundled video list. */
  datatype VideoData = VideoData(day: int, title: string, videoURL: string)

  // ---------------------------------------------------------------------
  // Views of a sequence of record values
  // ---------------------------------------------------------------------

  function Days(s: seq<DayRecord>): seq<int> {
    seq(|s|, i requires 0 <= i < |s| => s[i].day)
  }

  function DaySet(s: seq<DayRecord>): set<int> {
    set i | 0 <= i < |s| :: s[i].day
  }

  /** The identifier is a key: no two records share it. */
  predicate UniqueDays(s: seq<DayRecord>) {
    forall i, j :: 0 <= i < |s| && 0 <= j < |s| && i != j ==> s[i].day != s[j].day
  }

  predicate AllConsistent(s: seq<DayRecord>) {
    forall i :: 0 <= i < |s| ==> Consistent(s[i])
  }

  // ---------------------------------------------------------------------
  // What each bulk operation does to the stored values
  // ---------------------------------------------------------------------

  /** openAllDays on one record: a closed record is opened now; an opened one is left alone. */
  function OpenRecord(r: DayRecord, now: Time): DayRecord {
    if r.isOpened then r else r.(isOpened := true, openedAt := Some(now))
  }

  function ResetRecord(r: DayRecord): DayRecord {
    r.(isOpened := false, openedAt := None)
  }

  function FavoriteRecord(r: DayRecord, favorite: bool): DayRecord {
    r.(isFavorite := favorite)
  }

  /** markFavorites on one selected record: opened now, even if it was opened before, and a favorite. */
  function MarkRecord(r: DayRecord, now: Time): DayRecord {
    r.(isOpened := true, openedAt := Some(now), isFavorite := true)
  }

  function Opened(s: seq<DayRecord>, now: Time): seq<DayRecord> {
    seq(|s|, i requires 0 <= i < |s| => OpenRecord(s[i], now))
  }

  function Reset(s: seq<DayRecord>): seq<DayRecord> {
    seq(|s|, i requires 0 <= i < |s| => ResetRecord(s[i]))
  }

  function Favorited(s: seq<DayRecord>, favorite: bool): seq<DayRecord> {
    seq(|s|, i requires 0 <= i < |s| => FavoriteRecord(s[i], favorite))
  }

  function Marked(s: seq<DayRecord>, ids: seq<int>, now: Time): seq<DayRecord> {
    seq(|s|, i requires 0 <= i < |s| => if s[i].day in ids then MarkRecord(s[i], now) else s[i])
  }

  // ---------------------------------------------------------------------
  // Insertion under a unique identifier, and seeding
  // ---------------------------------------------------------------------

  /** The position of x in xs, or -1 when it does not occur. */
  function IndexOf(xs: seq<int>, x: int): (k: int)
    ensures -1 <= k < |xs|
    ensures 0 <= k ==> xs[k] == x
    ensures k < 0 <==> x !in xs
  {
    if xs == [] then -1
    else if xs[0] == x then 0
    else
      var k := IndexOf(xs[1..], x);
      if k < 0 then -1 else k + 1
  }

  /**
   * Inserting a record whose identifier is already stored replaces the
   * stored record (the identifier is a unique attribute); otherwise the
   * record is added at the end.
   */
  function Upsert(s: seq<DayRecord>, r: DayRecord): seq<DayRecord> {
    var k := IndexOf(Days(s), r.day);
    if 0 <= k then s[k := r] else s + [r]
  }

  /** The record made from a loaded entry, with every flag at its default. */
  function FromVideo(v: VideoData): DayRecord {
    DayRecord(v.day, v.videoURL, v.title, false, None, false)
  }

  /** The store after inserting one record per entry, in order, into an empty store. */
  function Seeded(videos: seq<VideoData>): seq<DayRecord>
    decreases |videos|
  {
    if videos == [] then []
    else Upsert(Seeded(videos[..|videos| - 1]), FromVideo(videos[|videos| - 1]))
  }

  // ---------------------------------------------------------------------
  // Properties of the bulk operations
  // ---------------------------------------------------------------------

  /** After openAllDays every record is opened, and every record has an open time when the store was consistent. */
  lemma OpenedOpensAll(s: seq<DayRecord>, now: Time)
    ensures |Opened(s, now)| == |s| && Days(Opened(s, now)) == Days(s)
    ensures forall i :: 0 <= i < |s| ==> Opened(s, now)[i].isOpened
    ensures AllConsistent(s) ==> forall i :: 0 <= i < |s| ==> Opened(s, now)[i].openedAt.Some?
  {
  }

  /** openAllDays writes only the two opening fields, and never those of an already opened record. */
  lemma OpenedKeepsTheRest(s: seq<DayRecord>, now: Time)
    ensures forall i :: 0 <= i < |s| ==> Opened(s, now)[i].(isOpened := s[i].isOpened, openedAt := s[i].openedAt) == s[i]
    ensures forall i :: 0 <= i < |s| && s[i].isOpened ==> Opened(s, now)[i] == s[i]
    ensures forall i :: 0 <= i < |s| && !s[i].isOpened ==> Opened(s, now)[i].openedAt == Some(now)
  {
  }

  /** A second openAllDays, at any later time, changes nothing. */
  lemma OpenedIdempotent(s: seq<DayRecord>, now: Time, later: Time)
    ensures Opened(Opened(s, now), later) == Opened(s, now)
  {
  }

  /** After resetAllDays no record is opened or has an open time; identifiers, titles, URLs and favorites are untouched. */
  lemma ResetClosesAll(s: seq<DayRecord>)
    ensures |Reset(s)| == |s| && Days(Reset(s)) == Days(s)
    ensures forall i :: 0 <= i < |s| ==> !Reset(s)[i].isOpened && Reset(s)[i].openedAt == None
    ensures forall i :: 0 <= i < |s| ==> Reset(s)[i].(isOpened := s[i].isOpened, openedAt := s[i].openedAt) == s[i]
    ensures AllConsistent(Reset(s))
  {
  }

  /** favoriteAll / unfavoriteAll set the favorite flag everywhere and nothing else. */
  lemma FavoritedSetsFlag(s: seq<DayRecord>, favorite: bool)
    ensures |Favorited(s, favorite)| == |s|
    ensures forall i :: 0 <= i < |s| ==> Favorited(s, favorite)[i].isFavorite == favorite
    ensures forall i :: 0 <= i < |s| ==> Favorited(s, favorite)[i].(isFavorite := s[i].isFavorite) == s[i]
  {
  }

  /** markFavorites updates exactly the records whose identifier is requested. */
  lemma MarkedSelects(s: seq<DayRecord>, ids: seq<int>, now: Time)
    ensures |Marked(s, ids, now)| == |s| && Days(Marked(s, ids, now)) == Days(s)
    ensures forall i :: 0 <= i < |s| && s[i].day in ids ==>
      var r := Marked(s, ids, now)[i];
      r.isOpened && r.openedAt == Some(now) && r.isFavorite
        && r.(isOpened := s[i].isOpened, openedAt := s[i].openedAt, isFavorite := s[i].isFavorite) == s[i]
    ensures forall i :: 0 <= i < |s| && s[i].day !in ids ==> Marked(s, ids, now)[i] == s[i]
  {
  }

  /** Every bulk operation keeps the record invariant. */
  lemma BulkKeepsConsistent(s: seq<DayRecord>, ids: seq<int>, now: Time, favorite: bool)
    requires AllConsistent(s)
    ensures AllConsistent(Opened(s, now))
    ensures AllConsistent(Reset(s))
    ensures AllConsistent(Favorited(s, favorite))
    ensures AllConsistent(Marked(s, ids, now))
  {
  }

  /** On an empty store every bulk operation leaves it empty. */
  lemma BulkOnEmpty(ids: seq<int>, now: Time, favorite: bool)
    ensures Opened([], now) == [] && Reset([]) == []
    ensures Favorited([], favorite) == [] && Marked([], ids, now) == []
  {
  }

  lemma DaysAt(s: seq<DayRecord>)
    ensures |Days(s)| == |s|
    ensures forall i :: 0 <= i < |s| ==> Days(s)[i] == s[i].day
    ensures forall x :: x in Days(s) <==> x in DaySet(s)
  {
    forall x | x in DaySet(s) ensures x in Days(s) {
      var i :| 0 <= i < |s| && s[i].day == x;
      assert Days(s)[i] == x;
    }
  }

  /** Upsert keeps identifiers unique and adds exactly the inserted identifier. */
  lemma UpsertKeepsKey(s: seq<DayRecord>, r: DayRecord)
    requires UniqueDays(s)
    ensures UniqueDays(Upsert(s, r))
    ensures DaySet(Upsert(s, r)) == DaySet(s) + {r.day}
    ensures r.day !in DaySet(s) ==> Upsert(s, r) == s + [r]
    ensures r in Upsert(s, r)
    ensures forall x :: x in Upsert(s, r) ==> x == r || x in s
  {
    DaysAt(s);
    var k := IndexOf(Days(s), r.day);
    var t := Upsert(s, r);
    if 0 <= k {
      assert t == s[k := r];
      forall x | x in DaySet(t) ensures x in DaySet(s) + {r.day} {
        var i :| 0 <= i < |t| && t[i].day == x;
        if i != k { assert s[i].day == x; }
      }
      forall x | x in DaySet(s) + {r.day} ensures x in DaySet(t) {
        if x == r.day {
          assert t[k].day == x;
        } else {
          var i :| 0 <= i < |s| && s[i].day == x;
          assert t[i].day == x;
        }
      }
      assert t[k] == r;
    } else {
      assert t == s + [r];
      assert t[|s|] == r;
      forall x | x in DaySet(t) ensures x in DaySet(s) + {r.day} {
        var i :| 0 <= i < |t| && t[i].day == x;
        if i < |s| { assert s[i].day == x; }
      }
      forall x | x in DaySet(s) + {r.day} ensures x in DaySet(t) {
        if x == r.day {
          assert t[|s|].day == x;
        } else {
          var i :| 0 <= i < |s| && s[i].day == x;
          assert t[i].day == x;
        }
      }
    }
  }

  /** The identifiers of all entries. */
  function VideoDays(videos: seq<VideoData>): set<int> {
    set i | 0 <= i < |videos| :: videos[i].day
  }

  /**
   * Seeding yields a store keyed by identifier, holding one record for each
   * distinct identifier of the loaded list, each built from some entry and
   * with every flag at its default.
   */
  lemma {:induction false} SeededIsKeyed(videos: seq<VideoData>)
    ensures UniqueDays(Seeded(videos))
    ensures DaySet(Seeded(videos)) == VideoDays(videos)
    ensures |Seeded(videos)| <= |videos|
    ensures forall r :: r in Seeded(videos) ==> Unopened(r) && exists v :: v in videos && r == FromVideo(v)
    ensures AllConsistent(Seeded(videos))
    decreases |videos|
  {
    if videos != [] {
      var pre := videos[..|videos| - 1];
      var v := videos[|videos| - 1];
      SeededIsKeyed(pre);
      UpsertKeepsKey(Seeded(pre), FromVideo(v));
      assert VideoDays(videos) == VideoDays(pre) + {v.day} by {
        forall x | x in VideoDays(videos) ensures x in VideoDays(pre) + {v.day} {
          var i :| 0 <= i < |videos| && videos[i].day == x;
          if i < |pre| { assert pre[i].day == x; }
        }
        forall x | x in VideoDays(pre) ensures x in VideoDays(videos) {
          var i :| 0 <= i < |pre| && pre[i].day == x;
          assert videos[i].day == x;
        }
        assert videos[|videos| - 1].day == v.day;
      }
      forall r | r in Seeded(videos) ensures Unopened(r) && exists w :: w in videos && r == FromVideo(w) {
        if r == FromVideo(v) {
          assert v in videos;
        } else {
          assert r in Seeded(pre);
          var w :| w in pre && r == FromVideo(w);
          assert w in videos;
        }
      }
      var s := Seeded(pre);
      if v.day in DaySet(s) {
        DaysAt(s);
        assert |Seeded(videos)| == |s|;
      } else {
        assert Seeded(videos) == s + [FromVideo(v)];
      }
    }
    var seeded := Seeded(videos);
    forall i | 0 <= i < |seeded| ensures Consistent(seeded[i]) {
      UnopenedIsConsistent(seeded[i]);
    }
  }

  predicate DistinctDays(videos: seq<VideoData>) {
    forall i, j :: 0 <= i < |videos| && 0 <= j < |videos| && i != j ==> videos[i].day != videos[j].day
  }

  /** When the loaded identifiers are distinct, seeding inserts exactly one record per entry, in order. */
  lemma {:induction false} SeededDistinct(videos: seq<VideoData>)
    requires DistinctDays(videos)
    ensures |Seeded(videos)| == |videos|
    ensures forall i :: 0 <= i < |videos| ==> Seeded(videos)[i] == FromVideo(videos[i])
    decreases |videos|
  {
    if videos != [] {
      var pre := videos[..|videos| - 1];
      var v := videos[|videos| - 1];
      assert DistinctDays(pre) by {
        forall i, j | 0 <= i < |pre| && 0 <= j < |pre| && i != j ensures pre[i].day != pre[j].day {
          assert pre[i] == videos[i] && pre[j] == videos[j];
        }
      }
      SeededDistinct(pre);
      SeededIsKeyed(pre);
      var s := Seeded(pre);
      assert v.day !in DaySet(s);
      UpsertKeepsKey(s, FromVideo(v));
      assert Seeded(videos) == s + [FromVideo(v)];
    }
  }

  // ---------------------------------------------------------------------
  // The store itself
  // ---------------------------------------------------------------------

  class DatabaseManager {
    /**
     * The stored records. The model keeps them in insertion order; the
     * calendar shows them sorted by identifier, and the view model relates
     * the two up to order.
     */
    var records: seq<AdventDay>

    /** The identifier is a unique attribute, so distinct positions hold distinct objects. */
    ghost predicate Valid()
      reads this
    {
      forall i, j :: 0 <= i < |records| && 0 <= j < |records| && i != j ==> records[i].day != records[j].day
    }

    /** The value of every stored record. */
    function Contents(): seq<DayRecord>
      reads this, records
    {
      seq(|records|, i requires 0 <= i < |records| reads this, records => records[i].Snapshot())
    }

    /** A new in-memory store is empty. */
    constructor ()
      ensures Valid() && records == []
    {
      records := [];
    }

    /** context.insert: a record with an already stored identifier replaces the stored one. */
    method Insert(d: AdventDay)
      requires Valid()
      modifies this
      ensures Valid()
      ensures Contents() == Upsert(old(Contents()), d.Snapshot())
      ensures d in records && forall x :: x in records ==> x in old(records) || x == d
    {
      ghost var before := Contents();
      DaysAt(before);
      var k := IndexOf(Days(Contents()), d.day);
      if 0 <= k {
        records := records[k := d];
        assert Contents() == before[k := d.Snapshot()];
      } else {
        assert forall i :: 0 <= i < |records| ==> Days(before)[i] == records[i].day;
        records := records + [d];
        assert Contents() == before + [d.Snapshot()];
      }
    }

    /** seedIfNeeded: an empty store is filled from the loaded list; a non-empty one is left alone. */
    method SeedIfNeeded(videos: seq<VideoData>)
      requires Valid()
      modifies this
      ensures Valid()
      ensures old(records) != [] ==> records == old(records) && Contents() == old(Contents())
      ensures old(records) == [] ==> Contents() == Seeded(videos) && fresh(set x | x in records)
    {
      if |records| != 0 {
        return;
      }
      for i := 0 to |videos|
        invariant Valid()
        invariant Contents() == Seeded(videos[..i])
        invariant forall x :: x in records ==> fresh(x)
      {
        var v := videos[i];
        var d := new AdventDay(v.day, v.videoURL, v.title);
        Insert(d);
        assert videos[..i + 1][..i] == videos[..i];
      }
      assert videos[..|videos|] == videos;
    }

    /** openAllDays */
    method OpenAllDays(now: Time)
      requires Valid()
      modifies records
      ensures records == old(records)
      ensures Contents() == Opened(old(Contents()), now)
    {
      for i := 0 to |records|
        invariant forall k :: 0 <= k < i ==> records[k].Snapshot() == OpenRecord(old(records[k].Snapshot()), now)
        invariant forall k :: i <= k < |records| ==> records[k].Snapshot() == old(records[k].Snapshot())
      {
        var d := records[i];
        if !d.isOpened {
          d.isOpened := true;
          d.openedAt := Some(now);
        }
      }
    }

    /** resetAllDays */
    method ResetAllDays()
      requires Valid()
      modifies records
      ensures records == old(records)
      ensures Contents() == Reset(old(Contents()))
    {
      for i := 0 to |records|
        invariant forall k :: 0 <= k < i ==> records[k].Snapshot() == ResetRecord(old(records[k].Snapshot()))
        invariant forall k :: i <= k < |records| ==> records[k].Snapshot() == old(records[k].Snapshot())
      {
        var d := records[i];
        d.isOpened := false;
        d.openedAt := None;
      }
    }

    /** favoriteAll */
    method FavoriteAll()
      requires Valid()
      modifies records
      ensures records == old(records)
      ensures Contents() == Favorited(old(Contents()), true)
    {
      for i := 0 to |records|
        invariant forall k :: 0 <= k < i ==> records[k].Snapshot() == FavoriteRecord(old(records[k].Snapshot()), true)
        invariant forall k :: i <= k < |records| ==> records[k].Snapshot() == old(records[k].Snapshot())
      {
        records[i].isFavorite := true;
      }
    }

    /** unfavoriteAll */
    method UnfavoriteAll()
      requires Valid()
      modifies records
      ensures records == old(records)
      ensures Contents() == Favorited(old(Contents()), false)
    {
      for i := 0 to |records|
        invariant forall k :: 0 <= k < i ==> records[k].Snapshot() == FavoriteRecord(old(records[k].Snapshot()), false)
        invariant forall k :: i <= k < |records| ==> records[k].Snapshot() == old(records[k].Snapshot())
      {
        records[i].isFavorite := false;
      }
    }

    /** markFavorites: the requested records are opened now and become favorites. */
    method MarkFavorites(now: Time, ids: seq<int> := [1, 3, 6, 12, 25])
      requires Valid()
      modifies records
      ensures records == old(records)
      ensures Contents() == Marked(old(Contents()), ids, now)
    {
      for i := 0 to |records|
        invariant forall k :: 0 <= k < i ==>
          records[k].Snapshot() == (if records[k].day in ids then MarkRecord(old(records[k].Snapshot()), now)
                                    else old(records[k].Snapshot()))
        invariant forall k :: i <= k < |records| ==> records[k].Snapshot() == old(records[k].Snapshot())
      {
        var d := records[i];
        if d.day in ids {
          d.isOpened := true;
          d.openedAt := Some(now);
          d.isFavorite := true;
        }
      }
    }
  }

  /** A fresh store seeded from a list and then opened has every loaded day opened with an open time. */
  method OpenAllAfterSeeding(videos: seq<VideoData>, now: Time) returns (db: DatabaseManager)
    ensures db.Valid() && DaySet(db.Contents()) == VideoDays(videos)
    ensures forall r :: r in db.Contents() ==> r.isOpened && r.openedAt.Some?
  {
    db := new DatabaseManager();
    db.SeedIfNeeded(videos);
    SeededIsKeyed(videos);
    ghost var seeded := db.Contents();
    db.OpenAllDays(now);
    OpenedOpensAll(seeded, now);
    assert db.Contents() == Opened(seeded, now);
    assert forall i :: 0 <= i < |seeded| ==> db.Contents()[i].day == seeded[i].day;
  }
}
