/** The screen-space stimulus script `newStimu`.

    One outer iteration shows, for every visual-field location in array
    order, a red stimulus and then a blue one, each for half a second and
    3.5 seconds apart. It then dims the background to blue and shows one
    long melanopsin stimulus at the first location. Every `ShowStimulus`
    moves and recolours a single stimulus object, created on first use,
    and schedules a separate coroutine that blanks it after the stimulus
    duration.

    The model lays the calls out on the logical clock as a `Run`, turns the
    run into the timeline of show, hide and background events, and replays
    that timeline against a scene holding the stimulus object and the
    background panel. */
module NewStimu {
  import opened LogicalClock
  import opened Outcomes

  datatype Vec2 = Vec2(x: real, y: real)

  /** A colour with red, green, blue and alpha channels. */
  datatype Color = Color(r: real, g: real, b: real, a: real)

  const Red := Color(1.0, 0.0, 0.0, 1.0)
  const Blue := Color(0.0, 0.0, 1.0, 1.0)
  /** The colour a hide writes: fully transparent black. */
  const Clear := Color(0.0, 0.0, 0.0, 0.0)

  const RedLuminance: real := 1000.0
  const BlueLuminance: real := 170.0
  const MelanopsinLuminance: real := 6000.0
  const BackgroundLuminance: real := 0.04
  const ChromaticDuration: real := 0.5
  /** The wait after each chromatic stimulus: its duration plus the gap. */
  const ChromaticWait: real := 3.5
  const MelanopsinDuration: real := 8.0
  /** The wait after the melanopsin stimulus: its duration plus the gap. */
  const MelanopsinWait: real := 16.0

  /** The locations the script sets up: centre, nasal, temporal, superior
      and inferior, in canvas units. */
  const DefaultLocations := [
    Vec2(0.0, 0.0), Vec2(-200.0, 0.0), Vec2(200.0, 0.0), Vec2(0.0, 200.0), Vec2(0.0, -200.0) ]

  // --------------------------------------------------------------- colour

  /** A colour with its red, green and blue channels scaled by the
      luminance and its alpha kept. */
  function AdjustBrightness(c: Color, luminance: real): (r: Color)
    ensures r.a == c.a
    ensures luminance == 1.0 ==> r == c
    ensures luminance == 0.0 ==> r == Color(0.0, 0.0, 0.0, c.a)
  {
    Color(c.r * luminance, c.g * luminance, c.b * luminance, c.a)
  }

  /** Scaling by a non-zero luminance is undone by scaling with its
      reciprocal. */
  lemma BrightnessInverse(c: Color, luminance: real)
    requires luminance != 0.0
    ensures AdjustBrightness(AdjustBrightness(c, luminance), 1.0 / luminance) == c
  {
    var inv := 1.0 / luminance;
    assert luminance * inv == 1.0;
    assert c.r * luminance * inv == c.r * (luminance * inv);
    assert c.g * luminance * inv == c.g * (luminance * inv);
    assert c.b * luminance * inv == c.b * (luminance * inv);
  }

  /** Two scalings in a row are one scaling by the product. */
  lemma BrightnessComposes(c: Color, first: real, second: real)
    ensures AdjustBrightness(AdjustBrightness(c, first), second) == AdjustBrightness(c, first * second)
  {
    assert c.r * first * second == c.r * (first * second);
    assert c.g * first * second == c.g * (first * second);
    assert c.b * first * second == c.b * (first * second);
  }

  // ------------------------------------------------------------ the calls

  /** One `ShowStimulus` call: when it is made, with which colour and
      luminance, where, and how long its hide coroutine waits. */
  datatype Show = Show(onset: real, color: Color, luminance: real, pos: Vec2, duration: real)

  /** The clock reading when the hide scheduled by a show fires. */
  function HideTime(s: Show): real {
    s.onset + Elapse(s.duration)
  }

  /** The `k`-th chromatic call, made at `onset`: red for the even calls and
      blue for the odd ones, both at location `k / 2`. */
  function ChromaticShow(locs: seq<Vec2>, k: nat, onset: real): Show
    requires k < 2 * |locs|
  {
    if k % 2 == 0 then Show(onset, Red, RedLuminance, locs[k / 2], ChromaticDuration)
    else Show(onset, Blue, BlueLuminance, locs[k / 2], ChromaticDuration)
  }

  /** The chromatic calls from the `k`-th on, the first made at `start`:
      the reference for the script's loop over the locations. */
  function ChromaticShows(locs: seq<Vec2>, k: nat, start: real): (r: seq<Show>)
    ensures |r| == if k <= 2 * |locs| then 2 * |locs| - k else 0
    ensures forall j {:trigger r[j]} :: 0 <= j < |r| ==>
              r[j] == ChromaticShow(locs, k + j, start + Times(j, ChromaticWait))
    decreases 2 * |locs| - k
  {
    if k >= 2 * |locs| then []
    else [ChromaticShow(locs, k, start)] + ChromaticShows(locs, k + 1, start + ChromaticWait)
  }

  /** How a run of the script ended. An empty location list makes the
      melanopsin phase index past the end of the list, which aborts the
      coroutine after the background has been set. */
  datatype Outcome = Completed | Faulted

  /** One outer iteration of `PresentStimuli`, laid out on the clock. */
  datatype Run = Run(
    chromatic: seq<Show>,
    backgroundAt: real,
    melanopsin: seq<Show>,
    outcome: Outcome,
    end: real)

  /** The melanopsin phase entered at `at`. */
  function Melanopsin(locs: seq<Vec2>, at: real): (Outcome, seq<Show>, real) {
    if |locs| == 0 then (Faulted, [], at)
    else (Completed, [Show(at, Blue, MelanopsinLuminance, locs[0], MelanopsinDuration)],
          at + Elapse(MelanopsinWait))
  }

  /** The reference run started at `start`. */
  function Plan(locs: seq<Vec2>, start: real): Run {
    var at := start + Times(2 * |locs|, ChromaticWait);
    var (outcome, shows, end) := Melanopsin(locs, at);
    Run(ChromaticShows(locs, 0, start), at, shows, outcome, end)
  }

  /** The script's chromatic loop: for each location, show red, wait, show
      blue, wait. */
  method ChromaticLoop(locs: seq<Vec2>, start: real) returns (shows: seq<Show>, clock: real)
    ensures shows == ChromaticShows(locs, 0, start)
    ensures clock == start + Times(2 * |locs|, ChromaticWait)
  {
    ghost var plan := ChromaticShows(locs, 0, start);
    shows, clock := [], start;
    var i := 0;
    while i < |locs|
      invariant 0 <= i <= |locs|
      invariant shows == plan[..2 * i]
      invariant clock == start + Times(2 * i, ChromaticWait)
    {
      var location := locs[i];
      assert plan[2 * i] == Show(clock, Red, RedLuminance, location, ChromaticDuration);
      shows := shows + [Show(clock, Red, RedLuminance, location, ChromaticDuration)];
      clock := clock + Elapse(ChromaticWait);
      assert plan[2 * i + 1] == Show(clock, Blue, BlueLuminance, location, ChromaticDuration);
      shows := shows + [Show(clock, Blue, BlueLuminance, location, ChromaticDuration)];
      clock := clock + Elapse(ChromaticWait);
      assert plan[..2 * (i + 1)] == plan[..2 * i] + [plan[2 * i], plan[2 * i + 1]];
      i := i + 1;
    }
    assert plan[..2 * |locs|] == plan;
  }

  /** The coroutine `PresentStimuli` started at `start`, with the nested
      `PresentMelanopsinStimuli`: it makes exactly the reference run. */
  method PresentStimuli(locs: seq<Vec2>, start: real) returns (run: Run)
    ensures run == Plan(locs, start)
  {
    var chromatic, clock := ChromaticLoop(locs, start);
    var backgroundAt := clock;
    if |locs| == 0 {
      run := Run(chromatic, backgroundAt, [], Faulted, clock);
    } else {
      var melanopsin := [Show(clock, Blue, MelanopsinLuminance, locs[0], MelanopsinDuration)];
      clock := clock + Elapse(MelanopsinWait);
      run := Run(chromatic, backgroundAt, melanopsin, Completed, clock);
    }
  }

  /** The chromatic calls visit the locations in array order, red then blue
      at each, with the fixed luminances and the half-second duration. */
  lemma ChromaticLayout(locs: seq<Vec2>, start: real)
    ensures var r := ChromaticShows(locs, 0, start);
            && |r| == 2 * |locs|
            && forall i {:trigger locs[i]} :: 0 <= i < |locs| ==>
                 && r[2 * i] == Show(start + Times(2 * i, ChromaticWait), Red, RedLuminance, locs[i], ChromaticDuration)
                 && r[2 * i + 1] == Show(start + Times(2 * i + 1, ChromaticWait), Blue, BlueLuminance, locs[i], ChromaticDuration)
  {
    var r := ChromaticShows(locs, 0, start);
    forall i | 0 <= i < |locs|
      ensures r[2 * i] == Show(start + Times(2 * i, ChromaticWait), Red, RedLuminance, locs[i], ChromaticDuration)
      ensures r[2 * i + 1] == Show(start + Times(2 * i + 1, ChromaticWait), Blue, BlueLuminance, locs[i], ChromaticDuration)
    {
      assert (2 * i) % 2 == 0 && (2 * i) / 2 == i;
      assert (2 * i + 1) % 2 == 1 && (2 * i + 1) / 2 == i;
      assert r[2 * i] == ChromaticShow(locs, 2 * i, start + Times(2 * i, ChromaticWait));
      assert r[2 * i + 1] == ChromaticShow(locs, 2 * i + 1, start + Times(2 * i + 1, ChromaticWait));
    }
  }

  /** Consecutive chromatic calls are exactly 3.5 seconds apart. */
  lemma ChromaticSpacing(locs: seq<Vec2>, start: real)
    ensures var r := ChromaticShows(locs, 0, start);
            forall j {:trigger r[j]} :: 0 <= j < |r| - 1 ==> r[j + 1].onset - r[j].onset == ChromaticWait
  {
    var r := ChromaticShows(locs, 0, start);
    forall j | 0 <= j < |r| - 1
      ensures r[j + 1].onset - r[j].onset == ChromaticWait
    {
      assert r[j + 1] == r[j + 1];
    }
  }

  /** The melanopsin phase starts when the last chromatic wait is over; with
      a location it shows one blue stimulus at the first location, whose
      hide fires before the run ends; without one the run faults there. */
  lemma MelanopsinPhase(locs: seq<Vec2>, start: real)
    ensures var run := Plan(locs, start);
            && run.backgroundAt == start + 7.0 * |locs| as real
            && (|locs| == 0 <==> run.outcome == Faulted)
            && (|locs| == 0 ==> run.melanopsin == [] && run.end == run.backgroundAt)
            && (|locs| > 0 ==>
                  && run.melanopsin == [Show(run.backgroundAt, Blue, MelanopsinLuminance, locs[0], MelanopsinDuration)]
                  && HideTime(run.melanopsin[0]) < run.end
                  && run.end == run.backgroundAt + MelanopsinWait)
  {
    TimesIsProduct(2 * |locs|, ChromaticWait);
  }

  // ------------------------------------------------------------- timeline

  /** What the scene sees at one instant. */
  datatype Action =
    | Display(color: Color, luminance: real, pos: Vec2)   // the body of ShowStimulus
    | Hide                                                // HideStimulusAfter firing
    | SetBackground(color: Color, luminance: real)

  datatype Event = Event(time: real, action: Action)

  /** A show and the hide it schedules. */
  function ShowHide(s: Show): seq<Event> {
    [Event(s.onset, Display(s.color, s.luminance, s.pos)), Event(HideTime(s), Hide)]
  }

  /** Every show followed directly by its own hide. */
  function Interleave(shows: seq<Show>): (r: seq<Event>)
    ensures |r| == 2 * |shows|
  {
    if shows == [] then [] else ShowHide(shows[0]) + Interleave(shows[1..])
  }

  /** Events `2k` and `2k+1` of the interleaving are show `k` and its own
      hide. */
  lemma {:induction false} InterleaveAt(shows: seq<Show>, k: nat)
    requires k < |shows|
    ensures Interleave(shows)[2 * k] == ShowHide(shows[k])[0]
    ensures Interleave(shows)[2 * k + 1] == ShowHide(shows[k])[1]
  {
    if k > 0 {
      InterleaveAt(shows[1..], k - 1);
      assert shows[1..][k - 1] == shows[k];
    }
  }

  /** The events of a run, each show directly followed by its own hide. */
  function Timeline(run: Run): seq<Event> {
    Interleave(run.chromatic)
    + [Event(run.backgroundAt, SetBackground(Blue, BackgroundLuminance))]
    + Interleave(run.melanopsin)
  }

  /** Strictly increasing event times. */
  predicate Increasing(events: seq<Event>) {
    forall i, j {:trigger events[i], events[j]} :: 0 <= i < j < |events| ==> events[i].time < events[j].time
  }

  /** Never decreasing event times. `StimuTrace` has a predicate of the same
      name over the world-space script's events; the two event types differ. */
  predicate Chronological(events: seq<Event>) {
    forall i, j {:trigger events[i], events[j]} :: 0 <= i < j < |events| ==> events[i].time <= events[j].time
  }

  /** Every hide fires after its own show and before the next show, so the
      interleaving of shows with their own hides is the order in which the
      events really happen. */
  predicate HidesInOwnSlot(shows: seq<Show>) {
    shows == [] ||
    (&& shows[0].onset < HideTime(shows[0])
     && (|shows| > 1 ==> HideTime(shows[0]) < shows[1].onset)
     && HidesInOwnSlot(shows[1..]))
  }

  lemma IncreasingAppend(a: seq<Event>, b: seq<Event>)
    requires Increasing(a) && Increasing(b)
    requires a != [] && b != [] ==> a[|a| - 1].time < b[0].time
    ensures Increasing(a + b)
  {
    var ab := a + b;
    forall i, j | 0 <= i < j < |ab|
      ensures ab[i].time < ab[j].time
    {
      if j < |a| {
        assert ab[i] == a[i] && ab[j] == a[j];
      } else if |a| <= i {
        assert ab[i] == b[i - |a|] && ab[j] == b[j - |a|];
      } else {
        assert ab[i] == a[i] && ab[j] == b[j - |a|];
        if i < |a| - 1 {
          assert a[i].time < a[|a| - 1].time;
        }
        if 0 < j - |a| {
          assert b[0].time < b[j - |a|].time;
        }
      }
    }
  }

  lemma IncreasingParts(a: seq<Event>, b: seq<Event>)
    requires Increasing(a + b)
    ensures Increasing(a) && Increasing(b)
    ensures a != [] && b != [] ==> a[|a| - 1].time < b[0].time
  {
    var ab := a + b;
    forall i, j | 0 <= i < j < |a|
      ensures a[i].time < a[j].time
    {
      assert ab[i] == a[i] && ab[j] == a[j];
    }
    forall i, j | 0 <= i < j < |b|
      ensures b[i].time < b[j].time
    {
      assert ab[|a| + i] == b[i] && ab[|a| + j] == b[j];
    }
    if a != [] && b != [] {
      assert ab[|a| - 1] == a[|a| - 1] && ab[|a|] == b[0];
    }
  }

  /** Interleaving each show with its own hide gives strictly increasing
      times exactly when every hide fires after its show and before the
      next show: the hides stay in their own slots, and only then. */
  lemma {:induction false} InterleaveIncreasing(shows: seq<Show>)
    ensures Increasing(Interleave(shows)) <==> HidesInOwnSlot(shows)
  {
    if shows != [] {
      var head, rest := ShowHide(shows[0]), Interleave(shows[1..]);
      assert Interleave(shows) == head + rest;
      InterleaveIncreasing(shows[1..]);
      if |shows| > 1 {
        assert rest[0] == ShowHide(shows[1..][0])[0];
        assert shows[1..][0] == shows[1];
      }
      if Increasing(head + rest) {
        IncreasingParts(head, rest);
        assert head[0].time < head[1].time;
      }
      if HidesInOwnSlot(shows) {
        assert Increasing(head) by {
          assert head[0].time < head[1].time;
        }
        IncreasingAppend(head, rest);
      }
    }
  }

  /** A chromatic call made at `onset` is hidden half a second later. */
  lemma ChromaticShowHidden(locs: seq<Vec2>, k: nat, onset: real)
    requires k < 2 * |locs|
    ensures ChromaticShow(locs, k, onset).onset == onset
    ensures HideTime(ChromaticShow(locs, k, onset)) == onset + ChromaticDuration
  {
  }

  /** Each chromatic show is hidden half a second after it appears and three
      seconds before the next one. */
  lemma {:induction false} ChromaticHidesInOwnSlot(locs: seq<Vec2>, k: nat, start: real)
    ensures HidesInOwnSlot(ChromaticShows(locs, k, start))
    decreases 2 * |locs| - k
  {
    var r := ChromaticShows(locs, k, start);
    if r != [] {
      var rest := ChromaticShows(locs, k + 1, start + ChromaticWait);
      assert r == [ChromaticShow(locs, k, start)] + rest;
      ChromaticHidesInOwnSlot(locs, k + 1, start + ChromaticWait);
      ChromaticShowHidden(locs, k, start);
      if rest != [] {
        ChromaticShowHidden(locs, k + 1, start + ChromaticWait);
      }
      assert r[1..] == rest;
    }
  }

  /** The timeline of the chromatic calls, each show followed by its own
      hide, is in the order in which the events really happen. */
  lemma ChromaticTimelineIncreasing(locs: seq<Vec2>, start: real)
    ensures Increasing(Interleave(ChromaticShows(locs, 0, start)))
  {
    ChromaticHidesInOwnSlot(locs, 0, start);
    InterleaveIncreasing(ChromaticShows(locs, 0, start));
  }

  /** Two runs of shows whose hides stay in their own slots, the second
      starting after the first one's last hide, keep their hides in their
      own slots when joined. */
  lemma {:induction false} HidesInOwnSlotAppend(a: seq<Show>, b: seq<Show>)
    requires HidesInOwnSlot(a) && HidesInOwnSlot(b)
    requires a != [] && b != [] ==> HideTime(a[|a| - 1]) < b[0].onset
    ensures HidesInOwnSlot(a + b)
  {
    if a != [] {
      assert (a + b)[1..] == a[1..] + b;
      assert (a + b)[0] == a[0];
      if |a| > 1 {
        assert a[1..][|a[1..]| - 1] == a[|a| - 1];
      }
      HidesInOwnSlotAppend(a[1..], b);
      if |a + b| > 1 {
        assert (a + b)[1] == if |a| > 1 then a[1] else b[0];
      }
    } else {
      assert a + b == b;
    }
  }

  /** No pending hide can blank a later stimulus: every chromatic hide and
      the melanopsin hide fire after their own show and before the next one,
      the melanopsin show included, so the shows of a run interleaved with
      their own hides are strictly increasing. */
  lemma StimuliHidesInOwnSlot(locs: seq<Vec2>, start: real)
    ensures var run := Plan(locs, start);
            |locs| > 0 ==> && HidesInOwnSlot(run.chromatic + run.melanopsin)
                           && Increasing(Interleave(run.chromatic + run.melanopsin))
  {
    var run := Plan(locs, start);
    if |locs| > 0 {
      var chromatic, melanopsin := run.chromatic, run.melanopsin;
      assert chromatic == ChromaticShows(locs, 0, start);
      assert HidesInOwnSlot(chromatic) by {
        ChromaticHidesInOwnSlot(locs, 0, start);
      }
      assert melanopsin == [Show(run.backgroundAt, Blue, MelanopsinLuminance, locs[0], MelanopsinDuration)];
      assert HidesInOwnSlot(melanopsin) by {
        assert melanopsin[1..] == [];
      }
      assert HideTime(chromatic[|chromatic| - 1]) < melanopsin[0].onset by {
        LastChromaticHide(locs, 0, start);
      }
      HidesInOwnSlotAppend(chromatic, melanopsin);
      InterleaveIncreasing(run.chromatic + run.melanopsin);
    }
  }

  lemma ChronologicalAppend(a: seq<Event>, b: seq<Event>)
    requires Chronological(a) && Chronological(b)
    requires a != [] && b != [] ==> a[|a| - 1].time <= b[0].time
    ensures Chronological(a + b)
  {
    var ab := a + b;
    forall i, j | 0 <= i < j < |ab|
      ensures ab[i].time <= ab[j].time
    {
      if j < |a| {
        assert ab[i] == a[i] && ab[j] == a[j];
      } else if |a| <= i {
        assert ab[i] == b[i - |a|] && ab[j] == b[j - |a|];
      } else {
        assert ab[i] == a[i] && ab[j] == b[j - |a|];
        assert a[i].time <= a[|a| - 1].time;
        assert b[0].time <= b[j - |a|].time;
      }
    }
  }

  /** The last chromatic hide fires three seconds before the background is
      dimmed. */
  lemma {:induction false} LastChromaticHide(locs: seq<Vec2>, k: nat, start: real)
    requires k < 2 * |locs|
    ensures var r := ChromaticShows(locs, k, start);
            HideTime(r[|r| - 1]) + 3.0 == start + Times(2 * |locs| - k, ChromaticWait)
    decreases 2 * |locs| - k
  {
    var r := ChromaticShows(locs, k, start);
    if k + 1 < 2 * |locs| {
      var rest := ChromaticShows(locs, k + 1, start + ChromaticWait);
      LastChromaticHide(locs, k + 1, start + ChromaticWait);
      assert r[|r| - 1] == rest[|rest| - 1];
      Distribute(1, 2 * |locs| - (k + 1), ChromaticWait);
    }
  }

  lemma IncreasingIsChronological(events: seq<Event>)
    requires Increasing(events)
    ensures Chronological(events)
  {
  }

  /** The chromatic calls with their hides, then the dimming of the
      background, in order. */
  lemma ChromaticThenBackground(locs: seq<Vec2>, start: real)
    ensures var run := Plan(locs, start);
            Chronological(Interleave(run.chromatic)
                          + [Event(run.backgroundAt, SetBackground(Blue, BackgroundLuminance))])
  {
    var run := Plan(locs, start);
    var chromatic := Interleave(run.chromatic);
    var background := [Event(run.backgroundAt, SetBackground(Blue, BackgroundLuminance))];
    ChromaticTimelineIncreasing(locs, start);
    IncreasingIsChronological(chromatic);
    if chromatic != [] {
      LastChromaticHide(locs, 0, start);
      InterleaveLast(run.chromatic);
    }
    ChronologicalAppend(chromatic, background);
  }

  /** The whole timeline of a run never goes back in time, and ends no later
      than the run: the background is dimmed after the last chromatic hide,
      and the melanopsin stimulus is shown as the background is dimmed and
      hidden before the run ends. */
  lemma TimelineChronological(locs: seq<Vec2>, start: real)
    ensures var run := Plan(locs, start);
            var events := Timeline(run);
            Chronological(events) && events[|events| - 1].time <= run.end
  {
    var run := Plan(locs, start);
    var front := Interleave(run.chromatic)
                 + [Event(run.backgroundAt, SetBackground(Blue, BackgroundLuminance))];
    var melanopsin := Interleave(run.melanopsin);
    ChromaticThenBackground(locs, start);
    MelanopsinPhase(locs, start);
    if melanopsin != [] {
      assert melanopsin == ShowHide(run.melanopsin[0]);
      assert melanopsin[0].time <= melanopsin[1].time;
      assert Chronological(melanopsin);
    }
    ChronologicalAppend(front, melanopsin);
    assert Timeline(run) == front + melanopsin;
  }

  lemma {:induction false} InterleaveLast(shows: seq<Show>)
    requires shows != []
    ensures var e := Interleave(shows);
            e[|e| - 1] == ShowHide(shows[|shows| - 1])[1]
  {
    if |shows| > 1 {
      InterleaveLast(shows[1..]);
      assert Interleave(shows) == ShowHide(shows[0]) + Interleave(shows[1..]);
    }
  }

  // ---------------------------------------------------------------- scene

  /** The stimulus object: where it is and what colour its image has. */
  datatype Stimulus = Stimulus(pos: Vec2, color: Color)

  /** The object named `BackgroundPanel`, with its image's colour when it
      has an image. */
  datatype Panel = Panel(image: Option<Color>)

  /** The part of the scene the script touches: the stimulus object once it
      exists, how many times one was created, and the background panel if
      there is one. */
  datatype Scene = Scene(stimulus: Option<Stimulus>, created: nat, panel: Option<Panel>)

  /** The body of `ShowStimulus`: create the object on first use, then move
      and recolour it. */
  function ShowStimulus(scene: Scene, color: Color, luminance: real, pos: Vec2): (r: Scene)
    ensures r.stimulus == Some(Stimulus(pos, AdjustBrightness(color, luminance)))
    ensures r.created == scene.created + (if scene.stimulus == None then 1 else 0)
    ensures r.panel == scene.panel
  {
    var created := if scene.stimulus == None then scene.created + 1 else scene.created;
    Scene(Some(Stimulus(pos, AdjustBrightness(color, luminance))), created, scene.panel)
  }

  /** The hide coroutine firing: the object keeps its place and turns fully
      transparent. Without an object there is nothing to hide. */
  function HideStimulus(scene: Scene): (r: Scene)
    ensures r.created == scene.created && r.panel == scene.panel
    ensures scene.stimulus == None ==> r == scene
    ensures scene.stimulus != None ==> r.stimulus == Some(Stimulus(scene.stimulus.value.pos, Clear))
  {
    match scene.stimulus
    case None => scene
    case Some(s) => scene.(stimulus := Some(s.(color := Clear)))
  }

  /** `SetBackground`: recolour the panel's image, and do nothing when the
      panel or its image is missing. */
  function SetBackgroundOf(scene: Scene, color: Color, luminance: real): (r: Scene)
    ensures r.stimulus == scene.stimulus && r.created == scene.created
    ensures scene.panel.Some? && scene.panel.value.image.Some? ==>
              r.panel == Some(Panel(Some(AdjustBrightness(color, luminance))))
    ensures scene.panel == None || scene.panel.value.image == None ==> r == scene
  {
    if scene.panel.Some? && scene.panel.value.image.Some? then
      scene.(panel := Some(Panel(Some(AdjustBrightness(color, luminance)))))
    else scene
  }

  /** The background change leaves the scene exactly as it was precisely
      when there is no panel, the panel has no image, or the image already
      has the new colour; it never touches the stimulus. */
  lemma SetBackgroundGuard(scene: Scene, color: Color, luminance: real)
    ensures var r := SetBackgroundOf(scene, color, luminance);
            && r.stimulus == scene.stimulus && r.created == scene.created
            && (r == scene <==>
                  || scene.panel == None
                  || scene.panel.value.image == None
                  || scene.panel.value.image == Some(AdjustBrightness(color, luminance)))
  {
  }

  /** Setting the background twice is setting it once. */
  lemma SetBackgroundIdempotent(scene: Scene, color: Color, luminance: real)
    ensures var once := SetBackgroundOf(scene, color, luminance);
            SetBackgroundOf(once, color, luminance) == once
  {
  }

  function Apply(scene: Scene, action: Action): Scene {
    match action
    case Display(color, luminance, pos) => ShowStimulus(scene, color, luminance, pos)
    case Hide => HideStimulus(scene)
    case SetBackground(color, luminance) => SetBackgroundOf(scene, color, luminance)
  }

  /** The scene after the events, taken in order. */
  function Replay(scene: Scene, events: seq<Event>): Scene
    decreases |events|
  {
    if events == [] then scene else Replay(Apply(scene, events[0].action), events[1..])
  }

  /** Whether any of the events shows the stimulus. */
  predicate AnyDisplay(events: seq<Event>) {
    exists i :: 0 <= i < |events| && events[i].action.Display?
  }

  /** The stimulus object is created at most once: replaying events creates
      one exactly when none existed and some event shows the stimulus, and
      afterwards an object exists exactly when one existed before or some
      event showed it. */
  lemma {:induction false} CreatedOnce(scene: Scene, events: seq<Event>)
    ensures var r := Replay(scene, events);
            && r.created == scene.created + (if scene.stimulus == None && AnyDisplay(events) then 1 else 0)
            && (r.stimulus != None <==> scene.stimulus != None || AnyDisplay(events))
    decreases |events|
  {
    if events != [] {
      var next := Apply(scene, events[0].action);
      CreatedOnce(next, events[1..]);
      if AnyDisplay(events[1..]) {
        var i :| 0 <= i < |events[1..]| && events[1..][i].action.Display?;
        assert events[i + 1].action.Display?;
      }
      if events[0].action.Display? {
        assert AnyDisplay(events);
      } else if AnyDisplay(events) {
        var i :| 0 <= i < |events| && events[i].action.Display?;
        assert events[1..][i - 1].action.Display?;
      }
    }
  }

  lemma {:induction false} ReplayAppend(scene: Scene, a: seq<Event>, b: seq<Event>)
    ensures Replay(scene, a + b) == Replay(Replay(scene, a), b)
    decreases |a|
  {
    if a == [] {
      assert a + b == b;
    } else {
      assert (a + b)[0] == a[0];
      assert (a + b)[1..] == a[1..] + b;
      ReplayAppend(Apply(scene, a[0].action), a[1..], b);
    }
  }

  /** After each show and its own hide, the stimulus sits at the show's
      location, blanked; shows and hides never touch the background. */
  lemma {:induction false} ReplayInterleave(scene: Scene, shows: seq<Show>)
    requires shows != []
    ensures var r := Replay(scene, Interleave(shows));
            && r.stimulus == Some(Stimulus(shows[|shows| - 1].pos, Clear))
            && r.panel == scene.panel
    decreases |shows|
  {
    var s := shows[0];
    var shown := ShowStimulus(scene, s.color, s.luminance, s.pos);
    var hidden := HideStimulus(shown);
    assert Replay(scene, ShowHide(s)) == hidden by {
      var e := ShowHide(s);
      assert e[1..] == [e[1]];
      assert Replay(shown, e[1..]) == Replay(hidden, []);
    }
    ReplayAppend(scene, ShowHide(s), Interleave(shows[1..]));
    if |shows| > 1 {
      ReplayInterleave(hidden, shows[1..]);
    }
  }

  /** Running the script on a new scene with at least one location creates
      the stimulus object once, leaves it blanked at the first location,
      where the melanopsin stimulus was, and leaves the background as the
      guarded background change makes it. */
  lemma RunOnNewScene(locs: seq<Vec2>, start: real, panel: Option<Panel>)
    requires |locs| > 0
    ensures var blank := Scene(None, 0, panel);
            var r := Replay(blank, Timeline(Plan(locs, start)));
            && r.created == 1
            && r.stimulus == Some(Stimulus(locs[0], Clear))
            && r.panel == SetBackgroundOf(blank, Blue, BackgroundLuminance).panel
  {
    var run := Plan(locs, start);
    var blank := Scene(None, 0, panel);
    var chromatic := Interleave(run.chromatic);
    var background := [Event(run.backgroundAt, SetBackground(Blue, BackgroundLuminance))];
    var melanopsin := Interleave(run.melanopsin);
    ReplayAppend(blank, chromatic + background, melanopsin);
    ReplayAppend(blank, chromatic, background);
    var afterChromatic := Replay(blank, chromatic);
    ReplayInterleave(blank, run.chromatic);
    var afterBackground := Replay(afterChromatic, background);
    assert afterBackground == SetBackgroundOf(afterChromatic, Blue, BackgroundLuminance) by {
      assert background[1..] == [];
    }
    ReplayInterleave(afterBackground, run.melanopsin);
    assert run.melanopsin[0].pos == locs[0];
    CreatedOnce(blank, Timeline(run));
    assert Timeline(run)[0].action.Display? by {
      assert Timeline(run)[0] == chromatic[0];
    }
  }

  /** With the script's five locations the run makes ten chromatic calls and
      one melanopsin call, dims the background 35 seconds in and ends 16
      seconds later. */
  lemma DefaultRun()
    ensures var run := Plan(DefaultLocations, 0.0);
            && |run.chromatic| == 10 && |run.melanopsin| == 1
            && run.backgroundAt == 35.0 && run.end == 51.0 && run.outcome == Completed
  {
    MelanopsinPhase(DefaultLocations, 0.0);
  }
}
