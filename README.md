# Horizon IT brochure site: the UI state machines

The site is a single page (home, about, services, team, contact). Most of it
is markup and animation. This project models the small amount of stateful
logic in five components. Each one becomes a Dafny module. Scroll offsets,
intersection-observer batches, key presses, pointer events, timer firings and
window widths are inputs.

- **Navbar** (`navbar.dfy`). Class `NavbarView` holds the bar's state:
  `active`, `open`, `scrolled`, `progress`, `hidden` and `lastScrollY`. It also
  holds the body's `overflow` style and the set of section ids the observer
  watches.
  - Mounting observes only the ids that have an element on the page.
  - An observer batch makes the last intersecting entry active.
  - The hide-on-scroll rule uses an 8-pixel hysteresis and a 140-pixel floor.
    Over whole runs of scroll events it hides the bar at most once per
    downward run.
  - The mobile menu's open/close rules, and Escape.
  - Labels are the section id with its first letter upper-cased.
- **Hero** (`hero.dfy`). Class `Carousel` holds the slide index and the
  timer reference. It also holds the host's table of live intervals, so that
  "at most one interval is live", "nothing ticks while the pointer is on the
  card" and "nothing ticks after unmount" can be stated and proved. Eight
  ticks bring the index back to where it started, and no smaller number of
  ticks does.
- **About** (`about.dfy`).
  - `YearsActive` is the non-negative years-since-2025 figure.
  - `CountUpEffect` is the count-up effect. Its interval loop becomes a
    `while` loop with one iteration per timer callback. It is proved equal to
    a schedule that rises by `end/50` per tick, never decreases, stays below
    `end` and finishes exactly on `end`.
  - Class `FlipCard` is the toggle.
- **Team** (`team.dfy`). The roster and the filters as data. An
  order-preserving category filter where "All" returns the roster unchanged.
  A partition lemma shows the three categories split the roster 1 + 1 + 2.
  Class `TeamView` holds the filter choice and the modal selection.
- **Services** (`services.dfy`). The mobile check and the pause flag. The
  list is still exactly when reduced motion, pause or mobile holds. The
  rendered list is the catalogue twice (12 cards, card `i` is service
  `i mod 6`).

Behaviour of the code worth knowing:

- The carousel's interval has a fixed 5000 ms period. Only pointer-enter and
  pointer-leave on the card pause and restart it. `Hero.jsx` has no dot,
  drag or keyboard navigation.
- The count-up runs for 800 ms in 16 ms steps, so 50 ticks.
- While its element is not in view, the count-up effect sets the count to
  `end` at once. This happens on the initial render too. When the element
  later comes into view, the run starts again from `current = 0`.
- In the team modal's markup, the overlay (`z-50`) sits under the full-screen modal container (`z-[60]`), which has no click handler. A click outside the card therefore probably never reaches the overlay's handler, and only the close button closes the modal. This was read from the markup and not executed; the model follows the handlers as written.
- The contact form in `Contact.jsx` has no submit handler and no state, so
  there is no submission state machine to model.

## Model

| member | source | states |
|---|---|---|
| Navbar.LastIntersecting | src/components/Navbar.jsx:46-52 | with no intersecting entry the active section is unchanged; otherwise it is the id of an intersecting entry after which no entry intersects (the last one) |
| Navbar.NextHidden | src/components/Navbar.jsx:30-34 | hides when y exceeds the last offset by more than 8 and exceeds 140; reveals when y is more than 8 below it; hides only in the first case, reveals only in the second, otherwise unchanged |
| Navbar.Run | src/components/Navbar.jsx:36 | after a run of scroll events the remembered offset is the last event's offset; an empty run changes nothing |
| Navbar.StaysHidden | src/components/Navbar.jsx:30-34 | once hidden, the bar stays hidden, with no new hide transition, through a run that never scrolls up by more than 8 |
| Navbar.OneHidePerRun | src/components/Navbar.jsx:30-34 | a run that never scrolls up by more than 8 hides the bar at most once, however many events pass the threshold |
| Navbar.ToUpper | src/components/Navbar.jsx:136 | lower-case ASCII letters map to their upper-case letter, every other character is unchanged |
| Navbar.Label | src/components/Navbar.jsx:136 | same length as the id; first character upper-cased, the rest unchanged |
| Navbar.SectionLabels | src/components/Navbar.jsx:126-137 | the five labels are Home, About, Services, Team, Contact |
| Navbar.NavbarView.constructor | src/components/Navbar.jsx:11-62 | starts at "home", closed, not scrolled, progress 0, shown, last offset 0; observes exactly the section ids that have an element, skipping the rest |
| Navbar.NavbarView.OnScroll | src/components/Navbar.jsx:22-37 | hidden follows the hide rule, lastScrollY becomes y, scrolled iff y > 50, progress 0 when docHeight <= 0, y/docHeight*100 otherwise; other fields unchanged |
| Navbar.NavbarView.OnIntersect | src/components/Navbar.jsx:46-52 | active becomes the last intersecting entry's id (unchanged when none) and stays one of the five section ids; nothing else changes |
| Navbar.NavbarView.SetOpen | src/components/Navbar.jsx:68-73 | sets open, and the body overflow is "hidden" iff open |
| Navbar.NavbarView.OpenMenu | src/components/Navbar.jsx:161 | the menu button opens the menu and locks body scrolling; every other field is unchanged |
| Navbar.NavbarView.CloseMenu | src/components/Navbar.jsx:178-216 | backdrop, close button and menu links close the menu and restore body scrolling; every other field is unchanged |
| Navbar.NavbarView.OnKey | src/components/Navbar.jsx:76 | Escape closes the menu; any other key leaves open unchanged; active, hidden, lastScrollY, scrolled, progress and observed never change |
| Hero.Advance | src/components/Hero.jsx:32 | the next index is in range: i + 1, or 0 after the last slide |
| Hero.AdvanceBy | src/components/Hero.jsx:31-33 | any number of ticks keeps the index in [0, 8) |
| Hero.AdvanceByIsRotation | src/components/Hero.jsx:32 | k ticks from i give (i + k) mod 8 |
| Hero.FullCycle | src/components/Hero.jsx:11-32 | exactly slides.length = 8 ticks return to the start; no positive number below 8 does |
| Hero.Carousel.Current | src/components/Hero.jsx:158-163 | the rendered slide is an in-bounds element of the slides |
| Hero.Carousel.constructor | src/components/Hero.jsx:23-39 | index starts at 0 and mounting leaves exactly one live interval, the referenced one |
| Hero.Carousel.StartCarousel | src/components/Hero.jsx:29-34 | the old interval is cleared and a fresh one is the only live interval; index unchanged |
| Hero.Carousel.Fire | src/components/Hero.jsx:31-33 | a live interval's firing advances the index by Advance; a cleared interval's firing changes nothing |
| Hero.Carousel.MouseEnter | src/components/Hero.jsx:125 | no interval is live afterwards; index unchanged |
| Hero.Carousel.MouseLeave | src/components/Hero.jsx:126 | a fresh interval is the only live one; index unchanged |
| Hero.Carousel.Unmount | src/components/Hero.jsx:36-39 | no interval is live after unmounting; index unchanged |
| Hero.AtMostOneLive | src/components/Hero.jsx:29-34 | in every valid state at most one interval is live |
| Hero.HoverThenTicks | src/components/Hero.jsx:125 | after mouse-enter, no sequence of firings changes the index |
| Hero.UnmountThenTicks | src/components/Hero.jsx:36-39 | after unmount, no sequence of firings changes the index |
| Hero.UndisturbedCycle | src/components/Hero.jsx:29-34 | 8 firings of the live interval return the index to its start |
| About.YearsActive | src/components/About.jsx:11-15 | never negative; 0 up to 2025, currentYear - 2025 after |
| About.YearsActiveMonotone | src/components/About.jsx:12-15 | a later year never shows fewer years |
| About.RunLength | src/components/About.jsx:44-53 | a run lasts duration/step = 50 ticks for a positive target, 1 tick otherwise |
| About.Schedule | src/components/About.jsx:49-56 | one displayed value per tick of a run |
| About.AccumulatedIsProduct | src/components/About.jsx:44-50 | current starts at 0 and after k ticks equals k * end/50 (kept multiplied by 50) |
| About.RunEndsWhenCurrentReachesEnd | src/components/About.jsx:50-53 | after k ticks current = k*end/50 reaches end exactly on the run's last tick and on none before |
| About.ScheduleEndsAtEnd | src/components/About.jsx:51-53 | the last displayed value is exactly end |
| About.ScheduleBelowEnd | src/components/About.jsx:54-56 | for a positive target every value before the last is in [0, end) |
| About.ScheduleMonotone | src/components/About.jsx:50-56 | for a non-negative target displayed values never decrease |
| About.CountUpEffect | src/components/About.jsx:38-60 | out of view or with reduced motion: shows end at once, no timer; otherwise a timer starts from current 0 and the updates are the schedule's prefix for the ticks delivered, ending with end and stopping |
| About.Toggled | src/components/About.jsx:77 | the click's update always flips the value |
| About.FlipCard.constructor | src/components/About.jsx:72 | a card starts unflipped |
| About.FlipCard.Click | src/components/About.jsx:77 | a click toggles flipped |
| About.ClickTwice | src/components/About.jsx:77 | two clicks restore the card |
| Team.FilterCategory | src/components/Team.jsx:93 | a subsequence of the input holding every member of the category and only those, as many as the category count, never longer than the input |
| Team.FilteredTeam | src/components/Team.jsx:90-93 | "All" gives the roster unchanged; any other filter gives the order-preserving subsequence of the roster in that category; all results are roster members |
| Team.CategoriesPartition | src/components/Team.jsx:84 | when every category is Leadership, Frontend or Backend, the three counts sum to the list length |
| Team.RosterPartition | src/components/Team.jsx:15-84 | every roster category is one of the three; the filters show 1, 1 and 2 of the 4 members |
| Team.SkillLevelsArePercentages | src/components/Team.jsx:26-79 | every skill level lies in 0..100 |
| Team.TeamView.constructor | src/components/Team.jsx:87-88 | filter starts at "All", nothing selected |
| Team.TeamView.Shown | src/components/Team.jsx:90-93 | the grid shows roster members only, the whole roster under "All" |
| Team.TeamView.ModalOpen | src/components/Team.jsx:175 | the modal is open iff a member is selected |
| Team.TeamView.ClickFilter | src/components/Team.jsx:119-122 | the filter becomes the clicked button's entry of the filter list, which keeps it one of the four filters |
| Team.TeamView.ClickCard | src/components/Team.jsx:136-141 | the clicked card's member becomes selected and the modal opens |
| Team.TeamView.CloseModal | src/components/Team.jsx:178-192 | overlay and close button clear the selection and close the modal |
| Services.IsMobileWidth | src/components/Services.jsx:57 | mobile iff innerWidth < 768 |
| Services.ListMotion | src/components/Services.jsx:101-105 | still iff reduceMotion or paused or mobile; otherwise loops from 0% to -50% |
| Services.Doubled | src/components/Services.jsx:113 | twice the length; elements i and n + i both equal element i of the input |
| Services.DoubledHalves | src/components/Services.jsx:104-113 | the two halves of the rendered list are both the input, so the scroll to -50% ends on a copy of its start |
| Services.RenderedList | src/components/Services.jsx:5-113 | the rendered list has 12 cards, card i showing service i mod 6 |
| Services.ServicesView.constructor | src/components/Services.jsx:52-58 | the state after the mount effect's first width check: unpaused, isMobile iff the width is below 768 |
| Services.ServicesView.MouseEnter | src/components/Services.jsx:93 | pauses the list |
| Services.ServicesView.MouseLeave | src/components/Services.jsx:94 | unpauses the list |
| Services.ServicesView.Resize | src/components/Services.jsx:56-59 | each resize recomputes isMobile from the new width |
| Services.ServicesView.CurrentMotion | src/components/Services.jsx:100-105 | the current state's list is still iff reduceMotion or paused or mobile |

## Left out

- Animations are left out: framer-motion springs, transitions, the `layoutId` underline, `useScroll`/`useTransform` fades, the hero's mouse parallax and the flip card's hover tilt. They are a library's rendering, not logic of this code.
- Navbar.NavbarView.OnScroll: takes the offsets as integers and computes `progress` in exact real arithmetic. IEEE floating-point rounding and fractional scroll offsets are not modelled.
- Navbar.ToUpper: upper-cases ASCII letters only. The section ids are ASCII, and full Unicode case mapping (which can change a string's length) is not modelled.
- The Navbar's unmount cleanup is not modelled. That cleanup removes the listeners, disconnects the observer and resets the body overflow to `""`.
- Intersection geometry is not computed. Batches arrive as sequences of `(id, isIntersecting)`, and the observer reports only watched elements. The 0.45 threshold and the root margin are not modelled.
- Real time is not modelled. Timer firings are discrete inputs, and the 5000 ms and 16 ms periods are not enforced.
- About.CountUpEffect: `current` is exact (kept multiplied by 50). JavaScript's floating-point drift is not reproduced. With floats, `k * (end / 50)` can fall just short of `end` at tick 50 and need one more tick.
- About.CountUpEffect: `ticks`, the number of callbacks delivered before cleanup, is an input. It stands in for unmount or a dependency change stopping the interval early. `useInView`'s fire-once behaviour is represented only by the `isInView` argument.
- Services.ServicesView.constructor: gives the state after the mount effect's first width check. The first render, where `isMobile` is still `false` and a narrow screen briefly sets the list moving, is not modelled as a separate state.
- Team.SkillLevelsArePercentages: states the range of the data only. The text `level%` and the bar width string are not modelled.
- Contact.jsx, Footer.jsx, App.jsx, main.jsx and tailwind.config.js are not part of this model. They are markup, static links, composition, the DOM root lookup and colour configuration.
