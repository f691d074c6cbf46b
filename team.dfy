/** The team section: the roster, the category filter and the profile modal. */
module Team {

  datatype Option<T> = None | Some(value: T)

  datatype Skill = Skill(name: string, level: int)

  datatype Member = Member(
    name: string, role: string, category: string, bio: string,
    email: string, github: string, linkedin: string, website: string,
    image: string, skills: seq<Skill>)

  const Roster: seq<Member> := [
    Member("Tristan Jorge Cuartero", "Project Leader", "Leadership",
      "Oversees architecture, planning, and overall system development.",
      "tristan.cuartero@horizonit.com", "https://github.com/krazytristan",
      "https://www.linkedin.com/in/tristan-jorge-cuartero/",
      "https://personal-website-sage-tau.vercel.app/", "/team/tristan.png",
      [Skill("System Architecture", 90), Skill("React", 85), Skill("PHP", 80), Skill("Project Management", 95)]),
    Member("Joseph Rendon Cubio", "Backend Programmer", "Backend",
      "Handles backend logic, databases, and API integrations.",
      "joseph.cubio@horizonit.com", "https://github.com", "https://linkedin.com",
      "https://portfolio.joseph.dev", "/team/cubio.png",
      [Skill("PHP", 85), Skill("MySQL", 80), Skill("API Development", 75)]),
    Member("Karlo Keiryl Pitman", "Backend Programmer", "Backend",
      "Focuses on system optimization and application logic.",
      "karlo.pitman@horizonit.com", "https://github.com", "https://linkedin.com",
      "https://portfolio.karlo.dev", "/team/karlo.jpg",
      [Skill("JavaScript", 80), Skill("Node.js", 75), Skill("Database Design", 78)]),
    Member("Marvin Paul Orozco", "Frontend Developer", "Frontend",
      "Designs and builds modern, responsive user interfaces.",
      "marvin.orozco@horizonit.com", "https://github.com", "https://linkedin.com",
      "https://portfolio.marvin.dev", "/team/marvin.png",
      [Skill("HTML / CSS", 90), Skill("Tailwind CSS", 88), Skill("React", 82), Skill("UI/UX Design", 80)])
  ]

  /** The filter buttons, in order; "All" shows everyone. */
  const Filters: seq<string> := ["All", "Leadership", "Frontend", "Backend"]

  /** The categories a member can have. */
  const Categories: seq<string> := ["Leadership", "Frontend", "Backend"]

  /** `a` is `b` with some elements left out, order kept. */
  predicate IsSubsequence<T(==)>(a: seq<T>, b: seq<T>)
    decreases |b|
  {
    if |a| == 0 then true
    else if |b| == 0 then false
    else if a[0] == b[0] then IsSubsequence(a[1..], b[1..])
    else IsSubsequence(a, b[1..])
  }

  /** How many members of `ms` are in category `c`. */
  function CountCategory(ms: seq<Member>, c: string): nat
    decreases |ms|
  {
    if |ms| == 0 then 0
    else (if ms[0].category == c then 1 else 0) + CountCategory(ms[1..], c)
  }

  /** The members of `ms` in category `c`, in their order in `ms`. */
  function FilterCategory(ms: seq<Member>, c: string): (r: seq<Member>)
    ensures IsSubsequence(r, ms)
    ensures forall i | 0 <= i < |r| :: r[i].category == c && r[i] in ms
    ensures forall i | 0 <= i < |ms| && ms[i].category == c :: ms[i] in r
    ensures |r| == CountCategory(ms, c) <= |ms|
    decreases |ms|
  {
    if |ms| == 0 then []
    else if ms[0].category == c then [ms[0]] + FilterCategory(ms[1..], c)
    else FilterCategory(ms[1..], c)
  }

  /** The members the grid shows under `activeFilter`. */
  function FilteredTeam(activeFilter: string): (r: seq<Member>)
    ensures activeFilter == "All" ==> r == Roster
    ensures activeFilter != "All" ==>
              IsSubsequence(r, Roster) &&
              (forall i | 0 <= i < |r| :: r[i].category == activeFilter) &&
              |r| == CountCategory(Roster, activeFilter)
    ensures forall i | 0 <= i < |r| :: r[i] in Roster
  {
    if activeFilter == "All" then Roster else FilterCategory(Roster, activeFilter)
  }

  /** When every member's category is one of the three, the three category
      counts add up to the whole list. */
  lemma {:induction false} CategoriesPartition(ms: seq<Member>)
    requires forall i | 0 <= i < |ms| :: ms[i].category in Categories
    ensures CountCategory(ms, "Leadership") + CountCategory(ms, "Frontend")
          + CountCategory(ms, "Backend") == |ms|
    decreases |ms|
  {
    if |ms| > 0 {
      CategoriesPartition(ms[1..]);
    }
  }

  /** Each roster member is in one of the three categories, and the three
      filters show 1, 1 and 2 of the 4 members. */
  lemma RosterPartition()
    ensures forall i | 0 <= i < |Roster| :: Roster[i].category in Categories
    ensures |FilteredTeam("Leadership")| == 1 && |FilteredTeam("Frontend")| == 1
    ensures |FilteredTeam("Backend")| == 2 && |Roster| == 4
  {
    CategoriesPartition(Roster);
    assert Roster[1..][1..][1..][1..] == [];
  }

  /** Every skill level in the roster is a percentage. */
  lemma SkillLevelsArePercentages()
    ensures forall i, j | 0 <= i < |Roster| && 0 <= j < |Roster[i].skills| ::
              0 <= Roster[i].skills[j].level <= 100
  {
  }

  /** The team section's state: the chosen filter and the member whose
      profile the modal shows, if any. */
  class TeamView {
    var activeFilter: string
    var selected: Option<Member>

    ghost predicate Valid()
      reads this
    {
      activeFilter in Filters && (selected.Some? ==> selected.value in Roster)
    }

    constructor ()
      ensures Valid() && activeFilter == "All" && selected == None
    {
      activeFilter, selected := "All", None;
    }

    /** The members the grid shows. */
    function Shown(): (r: seq<Member>)
      reads this
      ensures activeFilter == "All" ==> r == Roster
      ensures forall i | 0 <= i < |r| :: r[i] in Roster
    {
      FilteredTeam(activeFilter)
    }

    /** The modal is open exactly when a member is selected. */
    function ModalOpen(): (b: bool)
      reads this
      ensures b <==> selected != None
    {
      selected.Some?
    }

    /** A click on the filter button at position `i`. */
    method ClickFilter(i: nat)
      requires Valid() && i < |Filters|
      modifies this
      ensures Valid() && activeFilter == Filters[i] && selected == old(selected)
    {
      activeFilter := Filters[i];
    }

    /** A click on the card at position `i` of the grid. */
    method ClickCard(i: nat)
      requires Valid() && i < |Shown()|
      modifies this
      ensures Valid() && activeFilter == old(activeFilter)
      ensures selected == Some(old(Shown())[i]) && ModalOpen()
    {
      selected := Some(FilteredTeam(activeFilter)[i]);
    }

    /** A click on the overlay or on the modal's close button. */
    method CloseModal()
      requires Valid()
      modifies this
      ensures Valid() && activeFilter == old(activeFilter)
      ensures selected == None && !ModalOpen()
    {
      selected := None;
    }
  }
}
