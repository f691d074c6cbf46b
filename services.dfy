/** The services section: an auto-scrolling list, held still while the
    pointer is over it, on narrow screens, or with reduced motion. */
module Services {

  datatype Service = Service(title: string, desc: string, icon: string, accent: string, tags: seq<string>)

  const Catalogue: seq<Service> := [
    Service("Web Development",
      "High-performance, responsive websites and web applications built for scale and reliability.",
      "\U{1F310}", "from-horizon-orange to-horizon-amber", ["React", "Responsive", "Performance"]),
    Service("System Development",
      "Custom systems engineered around real business workflows and operational needs.",
      "\U{2699}\U{FE0F}", "from-horizon-amber to-horizon-green", ["Automation", "Integration", "Custom Logic"]),
    Service("IT Support",
      "24/7 monitoring, maintenance, and technical support to keep systems running smoothly.",
      "\U{1F6E0}\U{FE0F}", "from-horizon-green to-horizon-orange", ["Monitoring", "Maintenance", "Support"]),
    Service("Networking",
      "Secure, fast, and scalable network infrastructure for growing organizations.",
      "\U{1F4E1}", "from-horizon-orange to-horizon-green", ["Infrastructure", "Security", "Scalability"]),
    Service("Cloud Solutions",
      "Cloud deployment, migration, optimization, and long-term cloud management.",
      "\U{2601}\U{FE0F}", "from-horizon-amber to-horizon-orange", ["Migration", "Hosting", "Optimization"]),
    Service("Cybersecurity",
      "Protection for systems, networks, and data against modern digital threats.",
      "\U{1F510}", "from-horizon-green to-horizon-amber", ["Data Protection", "Risk Control", "Compliance"])
  ]

  /** Viewports narrower than this many pixels count as mobile. */
  const MobileBreakpoint := 768

  /** The list's animation target: held at `y: 0`, or looping from one
      vertical offset to another. */
  datatype Motion = Still | Loop(from: string, to: string)

  /** The mobile check run on mount and on every resize. */
  function IsMobileWidth(innerWidth: int): (b: bool)
    ensures b <==> innerWidth < MobileBreakpoint
  {
    innerWidth < MobileBreakpoint
  }

  /** The list is still exactly when motion is reduced, the list is paused
      or the screen is mobile; otherwise it scrolls through half its height,
      the length of one copy of the catalogue. */
  function ListMotion(reduceMotion: bool, paused: bool, isMobile: bool): (m: Motion)
    ensures m.Still? <==> (reduceMotion || paused || isMobile)
    ensures m.Loop? ==> m.from == "0%" && m.to == "-50%"
  {
    if reduceMotion || paused || isMobile then Still else Loop("0%", "-50%")
  }

  /** The rendered list: two copies of `s`, back to back. */
  function Doubled<T>(s: seq<T>): (r: seq<T>)
    ensures |r| == 2 * |s|
    ensures forall i | 0 <= i < |s| :: r[i] == s[i] && r[|s| + i] == s[i]
  {
    s + s
  }

  /** The two halves of the doubled list are identical, which is what lets
      the loop jump from -50% back to 0% unseen. */
  lemma DoubledHalves<T>(s: seq<T>)
    ensures Doubled(s)[..|s|] == Doubled(s)[|s|..] == s
  {
    var r := Doubled(s);
    assert r[..|s|] == s;
    assert r[|s|..] == s;
  }

  /** The list the section renders has twelve cards, card `i` showing
      service `i mod 6`. */
  lemma RenderedList()
    ensures |Doubled(Catalogue)| == 12
    ensures forall i | 0 <= i < 12 :: Doubled(Catalogue)[i] == Catalogue[i % 6]
  {
    forall i | 0 <= i < 12 ensures Doubled(Catalogue)[i] == Catalogue[i % 6] {
      if i >= 6 {
        assert Doubled(Catalogue)[6 + (i - 6)] == Catalogue[i - 6];
      }
    }
  }

  /** The section's state: `paused` while the pointer is over the list,
      `isMobile` from the last width check. */
  class ServicesView {
    var paused: bool
    var isMobile: bool

    /** Mounting: not paused, then the first width check. */
    constructor (innerWidth: int)
      ensures !paused && isMobile == (innerWidth < MobileBreakpoint)
    {
      paused := false;
      isMobile := IsMobileWidth(innerWidth);
    }

    method MouseEnter()
      modifies this
      ensures paused && isMobile == old(isMobile)
    {
      paused := true;
    }

    method MouseLeave()
      modifies this
      ensures !paused && isMobile == old(isMobile)
    {
      paused := false;
    }

    /** The resize listener re-runs the width check. */
    method Resize(innerWidth: int)
      modifies this
      ensures isMobile == (innerWidth < MobileBreakpoint) && paused == old(paused)
    {
      isMobile := IsMobileWidth(innerWidth);
    }

    /** The list's current animation target. */
    function CurrentMotion(reduceMotion: bool): (m: Motion)
      reads this
      ensures m.Still? <==> (reduceMotion || paused || isMobile)
    {
      ListMotion(reduceMotion, paused, isMobile)
    }
  }
}
