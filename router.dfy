/** Navigation: one destination stack per tab. */
module Routing {
  import opened Records

  datatype Destination = Video(day: AdventDay)

  datatype Tab = Calendar | Favorites

  /** The two stacks, calendar tab first. */
  datatype Paths = Paths(calendar: seq<Destination>, favorites: seq<Destination>) {
    function Of(tab: Tab): seq<Destination> {
      match tab
      case Calendar => calendar
      case Favorites => favorites
    }

    function With(tab: Tab, path: seq<Destination>): Paths {
      match tab
      case Calendar => this.(calendar := path)
      case Favorites => this.(favorites := path)
    }
  }

  function AfterPush(p: Paths, d: Destination, tab: Tab): Paths {
    p.With(tab, p.Of(tab) + [d])
  }

  /** Removing the last destination; an empty stack stays empty. */
  function AfterPop(p: Paths, tab: Tab): Paths {
    var path := p.Of(tab);
    if path == [] then p else p.With(tab, path[..|path| - 1])
  }

  function AfterPopToRoot(p: Paths, tab: Tab): Paths {
    p.With(tab, [])
  }

  /** Pushing several destinations one after another. */
  function AfterPushes(p: Paths, ds: seq<Destination>, tab: Tab): Paths
    decreases |ds|
  {
    if ds == [] then p else AfterPushes(AfterPush(p, ds[0], tab), ds[1..], tab)
  }

  function Other(tab: Tab): Tab {
    match tab
    case Calendar => Favorites
    case Favorites => Calendar
  }

  /** push appends to the chosen stack and leaves the other alone. */
  lemma PushAppends(p: Paths, d: Destination, tab: Tab)
    ensures AfterPush(p, d, tab).Of(tab) == p.Of(tab) + [d]
    ensures AfterPush(p, d, tab).Of(Other(tab)) == p.Of(Other(tab))
  {
  }

  /** k pushes lengthen the chosen stack by k, appending in order, and leave the other alone. */
  lemma {:induction false} PushesAppend(p: Paths, ds: seq<Destination>, tab: Tab)
    ensures AfterPushes(p, ds, tab).Of(tab) == p.Of(tab) + ds
    ensures |AfterPushes(p, ds, tab).Of(tab)| == |p.Of(tab)| + |ds|
    ensures AfterPushes(p, ds, tab).Of(Other(tab)) == p.Of(Other(tab))
    decreases |ds|
  {
    if ds != [] {
      var q := AfterPush(p, ds[0], tab);
      PushAppends(p, ds[0], tab);
      PushesAppend(q, ds[1..], tab);
      assert p.Of(tab) + [ds[0]] + ds[1..] == p.Of(tab) + ds;
    }
  }

  /** pop on a non-empty stack removes exactly its last destination; the other stack is unchanged. */
  lemma PopRemovesLast(p: Paths, tab: Tab)
    ensures p.Of(tab) != [] ==> AfterPop(p, tab).Of(tab) + [p.Of(tab)[|p.Of(tab)| - 1]] == p.Of(tab)
    ensures p.Of(tab) == [] ==> AfterPop(p, tab) == p
    ensures AfterPop(p, tab).Of(Other(tab)) == p.Of(Other(tab))
  {
  }

  /** pop right after push on the same tab restores both stacks. */
  lemma PopUndoesPush(p: Paths, d: Destination, tab: Tab)
    ensures AfterPop(AfterPush(p, d, tab), tab) == p
  {
    var path := p.Of(tab);
    assert (path + [d])[..|path|] == path;
  }

  /** popToRoot empties the chosen stack and leaves the other alone. */
  lemma PopToRootClears(p: Paths, tab: Tab)
    ensures AfterPopToRoot(p, tab).Of(tab) == []
    ensures AfterPopToRoot(p, tab).Of(Other(tab)) == p.Of(Other(tab))
  {
  }

  class Router {
    var calendarPath: seq<Destination>
    var favoritesPath: seq<Destination>

    function Current(): Paths
      reads this
    {
      Paths(calendarPath, favoritesPath)
    }

    constructor ()
      ensures calendarPath == [] && favoritesPath == []
    {
      calendarPath := [];
      favoritesPath := [];
    }

    method Push(destination: Destination, tab: Tab)
      modifies this
      ensures Current() == AfterPush(old(Current()), destination, tab)
    {
      match tab
      case Calendar => calendarPath := calendarPath + [destination];
      case Favorites => favoritesPath := favoritesPath + [destination];
    }

    method Pop(tab: Tab)
      modifies this
      ensures Current() == AfterPop(old(Current()), tab)
    {
      match tab
      case Calendar =>
        if calendarPath != [] {
          calendarPath := calendarPath[..|calendarPath| - 1];
        }
      case Favorites =>
        if favoritesPath != [] {
          favoritesPath := favoritesPath[..|favoritesPath| - 1];
        }
    }

    method PopToRoot(tab: Tab)
      modifies this
      ensures Current() == AfterPopToRoot(old(Current()), tab)
    {
      match tab
      case Calendar => calendarPath := [];
      case Favorites => favoritesPath := [];
    }
  }
}
