/** The hero carousel: a slide index advanced by an interval timer, paused
    while the pointer is over the card and restarted fresh when it leaves.
    The host's timer table is part of the state, so that "at most one live
    interval" and "no tick after clearing" can be stated. */
module Hero {

  datatype Slide = Slide(title: string, desc: string)

  const Slides: seq<Slide> := [
    Slide("Web Systems", "High-performance platforms engineered for scalability, reliability, and speed."),
    Slide("System Development", "Custom-built information systems tailored to streamline operations and improve efficiency."),
    Slide("Cloud Solutions", "Secure, flexible cloud infrastructure that evolves with your business."),
    Slide("Mobile Applications", "Cross-platform mobile apps designed for performance, usability, and growth."),
    Slide("UI / UX Design", "User-centered designs that create intuitive, engaging, and consistent digital experiences."),
    Slide("IT Support", "Proactive monitoring, maintenance, and expert technical assistance."),
    Slide("Network & Infrastructure", "Reliable network design, setup, and maintenance for secure connectivity."),
    Slide("Cybersecurity", "Modern security strategies to protect systems, data, and users.")
  ]

  /** What one tick does to the index: the next slide, wrapping after the last. */
  function Advance(i: nat): (r: nat)
    requires i < |Slides|
    ensures r < |Slides|
    ensures i + 1 < |Slides| ==> r == i + 1
    ensures i + 1 == |Slides| ==> r == 0
  {
    (i + 1) % |Slides|
  }

  /** The index after `k` ticks from `i`. */
  function AdvanceBy(i: nat, k: nat): (r: nat)
    requires i < |Slides|
    ensures r < |Slides|
    decreases k
  {
    if k == 0 then i else AdvanceBy(Advance(i), k - 1)
  }

  /** `k` ticks move the index `k` places round the cycle of slides. */
  lemma {:induction false} AdvanceByIsRotation(i: nat, k: nat)
    requires i < |Slides|
    ensures AdvanceBy(i, k) == (i + k) % |Slides|
    decreases k
  {
    if k > 0 {
      AdvanceByIsRotation(Advance(i), k - 1);
      assert |Slides| == 8;
    }
  }

  /** Exactly as many ticks as there are slides bring the index back, and no
      smaller positive number of ticks does. */
  lemma FullCycle(i: nat, k: nat)
    requires i < |Slides|
    ensures AdvanceBy(i, |Slides|) == i
    ensures 0 < k < |Slides| ==> AdvanceBy(i, k) != i
  {
    AdvanceByIsRotation(i, |Slides|);
    AdvanceByIsRotation(i, k);
  }

  /** The carousel's state. `timer` is the component's timer reference, 0
      standing for null (the host's handles are positive); `live` is the set
      of intervals the host will still fire; `nextHandle` is the handle the
      host hands out next. */
  class Carousel {
    var index: nat
    var timer: int
    var live: set<int>
    var nextHandle: int
    var mounted: bool

    ghost predicate Valid()
      reads this
    {
      index < |Slides| &&
      0 <= timer < nextHandle &&
      live <= {timer} && 0 !in live &&
      (!mounted ==> live == {})
    }

    /** The displayed slide. */
    function Current(): (s: Slide)
      reads this
      requires Valid()
      ensures s in Slides
    {
      Slides[index]
    }

    /** Mounting: index 0, then the mount effect starts the carousel. */
    constructor ()
      ensures Valid() && mounted
      ensures index == 0 && live == {timer}
    {
      index, timer, live, nextHandle, mounted := 0, 0, {}, 1, true;
      new;
      StartCarousel();
    }

    /** Clears the referenced interval if there is one, then starts a fresh
        one and records its handle. */
    method StartCarousel()
      requires Valid() && mounted
      modifies this
      ensures Valid() && mounted
      ensures timer == old(nextHandle) && nextHandle == old(nextHandle) + 1
      ensures live == {timer} && old(timer) !in live
      ensures index == old(index)
    {
      if timer != 0 {
        live := live - {timer};
      }
      timer := nextHandle;
      nextHandle := nextHandle + 1;
      live := live + {timer};
    }

    /** The host fires interval `h`: a live interval advances the index; a
        cleared one never runs. */
    method Fire(h: int)
      requires Valid()
      modifies this
      ensures Valid()
      ensures h in live ==> index == Advance(old(index))
      ensures h !in live ==> index == old(index)
      ensures timer == old(timer) && live == old(live) && nextHandle == old(nextHandle) && mounted == old(mounted)
    {
      if h in live {
        index := (index + 1) % |Slides|;
      }
    }

    /** The pointer enters the card: the referenced interval is cleared. */
    method MouseEnter()
      requires Valid() && mounted
      modifies this
      ensures Valid() && mounted
      ensures live == {}
      ensures index == old(index) && timer == old(timer) && nextHandle == old(nextHandle)
    {
      if timer != 0 {
        live := live - {timer};
      }
    }

    /** The pointer leaves the card: the carousel restarts with a fresh interval. */
    method MouseLeave()
      requires Valid() && mounted
      modifies this
      ensures Valid() && mounted
      ensures timer == old(nextHandle) && live == {timer}
      ensures index == old(index)
    {
      StartCarousel();
    }

    /** Unmounting: the cleanup clears the referenced interval. */
    method Unmount()
      requires Valid() && mounted
      modifies this
      ensures Valid() && !mounted
      ensures live == {}
      ensures index == old(index)
    {
      live := live - {timer};
      mounted := false;
    }
  }

  /** At most one interval is ever live. */
  lemma AtMostOneLive(c: Carousel)
    requires c.Valid()
    ensures |c.live| <= 1
  {
    if c.live != {} {
      assert c.live == {c.timer};
    }
  }

  /** While the pointer rests on the card, no firing of any interval changes
      the slide. */
  method HoverThenTicks(c: Carousel, fired: seq<int>)
    requires c.Valid() && c.mounted
    modifies c
    ensures c.Valid() && c.live == {}
    ensures c.index == old(c.index)
  {
    c.MouseEnter();
    for t := 0 to |fired|
      invariant c.Valid() && c.live == {} && c.index == old(c.index)
    {
      c.Fire(fired[t]);
    }
  }

  /** After unmounting, no firing changes the slide. */
  method UnmountThenTicks(c: Carousel, fired: seq<int>)
    requires c.Valid() && c.mounted
    modifies c
    ensures c.Valid() && !c.mounted
    ensures c.index == old(c.index)
  {
    c.Unmount();
    for t := 0 to |fired|
      invariant c.Valid() && !c.mounted && c.index == old(c.index)
    {
      c.Fire(fired[t]);
    }
  }

  /** With the pointer away, `|Slides|` firings of the live interval return to
      the starting slide. */
  method UndisturbedCycle(c: Carousel)
    requires c.Valid() && c.mounted && c.live == {c.timer}
    modifies c
    ensures c.Valid() && c.index == old(c.index)
  {
    ghost var start := c.index;
    for t := 0 to |Slides|
      invariant c.Valid() && c.live == {c.timer}
      invariant c.index == AdvanceBy(start, t)
    {
      c.Fire(c.timer);
      AdvanceByStep(start, t);
    }
    FullCycle(start, 0);
  }

  /** One more tick after `k`. */
  lemma {:induction false} AdvanceByStep(i: nat, k: nat)
    requires i < |Slides|
    ensures AdvanceBy(i, k + 1) == Advance(AdvanceBy(i, k))
    decreases k
  {
    if k > 0 {
      AdvanceByStep(Advance(i), k - 1);
    }
  }
}
