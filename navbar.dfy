/** The navigation bar: hide-on-scroll with hysteresis, the active-section
    tracker fed by intersection-observer batches, the mobile menu and the
    section labels. Scroll events, observer batches and key presses are inputs. */
module Navbar {

  /** The ids of the page's sections, in page order. */
  const Sections: seq<string> := ["home", "about", "services", "team", "contact"]

  /** A movement of at most this many pixels neither hides nor reveals the bar. */
  const Hysteresis := 8
  /** The bar is never hidden while the page is scrolled no further than this. */
  const HideFloor := 140
  /** Past this offset the bar gets its solid background. */
  const ScrolledAt := 50

  /** One entry of an observer batch: the observed element's id and whether it intersects. */
  datatype Entry = Entry(id: string, isIntersecting: bool)

  /** The active section after a batch: the id of the last intersecting entry,
      or the previous active section when no entry intersects. */
  function LastIntersecting(active: string, entries: seq<Entry>): (r: string)
    ensures (forall i | 0 <= i < |entries| :: !entries[i].isIntersecting) ==> r == active
    ensures (exists i | 0 <= i < |entries| :: entries[i].isIntersecting) ==>
              exists i | 0 <= i < |entries| ::
                entries[i].isIntersecting && entries[i].id == r &&
                forall j | i < j < |entries| :: !entries[j].isIntersecting
    decreases |entries|
  {
    if |entries| == 0 then active
    else if entries[|entries| - 1].isIntersecting then entries[|entries| - 1].id
    else LastIntersecting(active, entries[..|entries| - 1])
  }

  /** The hide rule of one scroll event from offset `lastY` to `y`. */
  function NextHidden(hidden: bool, lastY: int, y: int): (h: bool)
    ensures y > lastY + Hysteresis && y > HideFloor ==> h
    ensures y < lastY - Hysteresis ==> !h
    ensures h && !hidden ==> y > lastY + Hysteresis && y > HideFloor
    ensures !h && hidden ==> y < lastY - Hysteresis
  {
    if y > lastY + Hysteresis && y > HideFloor then true
    else if y < lastY - Hysteresis then false
    else hidden
  }

  /** The part of the bar's state that scroll events drive. */
  datatype ScrollState = ScrollState(hidden: bool, lastY: int)

  /** One scroll event: the hide rule, then the remembered offset becomes `y`. */
  function Step(s: ScrollState, y: int): ScrollState
  {
    ScrollState(NextHidden(s.hidden, s.lastY, y), y)
  }

  /** A run of scroll events, in order. */
  function Run(s: ScrollState, ys: seq<int>): (t: ScrollState)
    ensures |ys| > 0 ==> t.lastY == ys[|ys| - 1]
    ensures |ys| == 0 ==> t == s
    decreases |ys|
  {
    if |ys| == 0 then s else Run(Step(s, ys[0]), ys[1..])
  }

  /** How many events of a run turn the bar from shown to hidden. */
  function HideCount(s: ScrollState, ys: seq<int>): nat
    decreases |ys|
  {
    if |ys| == 0 then 0
    else (if !s.hidden && Step(s, ys[0]).hidden then 1 else 0) + HideCount(Step(s, ys[0]), ys[1..])
  }

  /** No event of the run scrolls up by more than the hysteresis. */
  predicate NoReveal(lastY: int, ys: seq<int>)
    decreases |ys|
  {
    |ys| == 0 || (ys[0] >= lastY - Hysteresis && NoReveal(ys[0], ys[1..]))
  }

  /** Once hidden, the bar stays hidden through a run that never scrolls up
      by more than the hysteresis. */
  lemma {:induction false} StaysHidden(s: ScrollState, ys: seq<int>)
    requires s.hidden && NoReveal(s.lastY, ys)
    ensures Run(s, ys).hidden && HideCount(s, ys) == 0
    decreases |ys|
  {
    if |ys| > 0 {
      StaysHidden(Step(s, ys[0]), ys[1..]);
    }
  }

  /** However many events of a downward run exceed the threshold, the bar is
      hidden at most once in it. */
  lemma {:induction false} OneHidePerRun(s: ScrollState, ys: seq<int>)
    requires NoReveal(s.lastY, ys)
    ensures HideCount(s, ys) <= 1
    decreases |ys|
  {
    if s.hidden {
      StaysHidden(s, ys);
    } else if |ys| > 0 {
      var t := Step(s, ys[0]);
      if t.hidden {
        StaysHidden(t, ys[1..]);
      } else {
        OneHidePerRun(t, ys[1..]);
      }
    }
  }

  /** Upper-casing of one character: ASCII letters only. */
  function ToUpper(c: char): (u: char)
    ensures 'a' <= c <= 'z' ==> u as int == c as int - 32
    ensures !('a' <= c <= 'z') ==> u == c
  {
    if 'a' <= c <= 'z' then (c as int - 32) as char else c
  }

  /** A menu label: the id's first character upper-cased, the rest unchanged. */
  function Label(id: string): (r: string)
    ensures |r| == |id|
    ensures |id| > 0 ==> r[0] == ToUpper(id[0]) && r[1..] == id[1..]
  {
    if |id| == 0 then "" else [ToUpper(id[0])] + id[1..]
  }

  /** The labels the menus show, in order. */
  lemma SectionLabels()
    ensures Label(Sections[0]) == "Home" && Label(Sections[1]) == "About"
    ensures Label(Sections[2]) == "Services" && Label(Sections[3]) == "Team"
    ensures Label(Sections[4]) == "Contact"
  {
  }

  /** The navigation bar's state. `overflow` is the page body's overflow
      style, which the bar sets while the mobile menu is open; `observed` holds
      the ids of the elements the intersection observer watches. */
  class NavbarView {
    var active: string
    var open: bool
    var scrolled: bool
    var progress: real
    var hidden: bool
    var lastScrollY: int
    var overflow: string
    var observed: set<string>

    ghost predicate Valid()
      reads this
    {
      active in Sections &&
      (forall id | id in observed :: id in Sections) &&
      overflow == (if open then "hidden" else "")
    }

    /** Mounting: the initial state, then each section id that has an element
        on the page (`present`) is observed; ids without one are skipped. */
    constructor (present: set<string>)
      ensures Valid()
      ensures active == "home" && !open && !scrolled && progress == 0.0 && !hidden && lastScrollY == 0
      ensures observed == set id | id in Sections && id in present
    {
      active, open, scrolled, progress, hidden, lastScrollY := "home", false, false, 0.0, false, 0;
      overflow := "";
      observed := {};
      new;
      for i := 0 to |Sections|
        invariant observed == set id | id in Sections[..i] && id in present
        invariant active == "home" && !open && !scrolled && progress == 0.0 && !hidden && lastScrollY == 0
        invariant overflow == ""
      {
        assert Sections[..i + 1] == Sections[..i] + [Sections[i]];
        if Sections[i] in present {
          observed := observed + {Sections[i]};
        }
      }
      assert Sections[..|Sections|] == Sections;
    }

    /** The scroll handler, given the new offset `y` and the scrollable height
        `docHeight`. */
    method OnScroll(y: int, docHeight: int)
      requires Valid()
      modifies this
      ensures Valid()
      ensures ScrollState(hidden, lastScrollY) == Step(old(ScrollState(hidden, lastScrollY)), y)
      ensures lastScrollY == y
      ensures scrolled == (y > ScrolledAt)
      ensures docHeight <= 0 ==> progress == 0.0
      ensures docHeight > 0 ==> progress == (y as real / docHeight as real) * 100.0
      ensures active == old(active) && open == old(open) && overflow == old(overflow) && observed == old(observed)
    {
      progress := if docHeight > 0 then (y as real / docHeight as real) * 100.0 else 0.0;
      scrolled := y > ScrolledAt;
      if y > lastScrollY + Hysteresis && y > HideFloor {
        hidden := true;
      } else if y < lastScrollY - Hysteresis {
        hidden := false;
      }
      lastScrollY := y;
    }

    /** The observer callback: every intersecting entry of the batch, in
        order, becomes the active section. The observer reports only the
        elements it watches. */
    method OnIntersect(entries: seq<Entry>)
      requires Valid()
      requires forall i | 0 <= i < |entries| :: entries[i].id in observed
      modifies this
      ensures Valid()
      ensures active == LastIntersecting(old(active), entries)
      ensures open == old(open) && scrolled == old(scrolled) && progress == old(progress)
      ensures hidden == old(hidden) && lastScrollY == old(lastScrollY)
      ensures overflow == old(overflow) && observed == old(observed)
    {
      for i := 0 to |entries|
        invariant active == LastIntersecting(old(active), entries[..i])
        invariant active in Sections
        invariant open == old(open) && scrolled == old(scrolled) && progress == old(progress)
        invariant hidden == old(hidden) && lastScrollY == old(lastScrollY)
        invariant overflow == old(overflow) && observed == old(observed)
      {
        assert entries[..i + 1][..i] == entries[..i];
        if entries[i].isIntersecting {
          active := entries[i].id;
        }
      }
      assert entries[..|entries|] == entries;
    }

    /** Sets the menu state, then the effect that follows `open` updates the
        body's overflow. */
    method SetOpen(v: bool)
      requires Valid()
      modifies this
      ensures Valid() && open == v
      ensures overflow == (if v then "hidden" else "")
      ensures active == old(active) && scrolled == old(scrolled) && progress == old(progress)
      ensures hidden == old(hidden) && lastScrollY == old(lastScrollY) && observed == old(observed)
    {
      open := v;
      overflow := if open then "hidden" else "";
    }

    /** The menu button. */
    method OpenMenu()
      requires Valid()
      modifies this
      ensures Valid() && open && overflow == "hidden"
      ensures active == old(active) && hidden == old(hidden) && lastScrollY == old(lastScrollY)
      ensures scrolled == old(scrolled) && progress == old(progress) && observed == old(observed)
    {
      SetOpen(true);
    }

    /** The backdrop, the close button and each link of the mobile menu. */
    method CloseMenu()
      requires Valid()
      modifies this
      ensures Valid() && !open && overflow == ""
      ensures active == old(active) && hidden == old(hidden) && lastScrollY == old(lastScrollY)
      ensures scrolled == old(scrolled) && progress == old(progress) && observed == old(observed)
    {
      SetOpen(false);
    }

    /** The key handler: Escape closes the menu, any other key changes nothing. */
    method OnKey(key: string)
      requires Valid()
      modifies this
      ensures Valid()
      ensures key == "Escape" ==> !open
      ensures key != "Escape" ==> open == old(open)
      ensures active == old(active) && hidden == old(hidden) && lastScrollY == old(lastScrollY)
      ensures scrolled == old(scrolled) && progress == old(progress) && observed == old(observed)
    {
      if key == "Escape" {
        SetOpen(false);
      }
    }
  }
}
