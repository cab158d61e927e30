/** The stimulus schedule of the world-space script `StimuTest`.

    After a lead-in wait the script makes two chromatic passes over its
    location list, the first with the red sphere and the second with the
    blue one, and then one long blue pass over the same locations. Each
    presentation activates a sphere and sends a Start marker, waits the
    stimulation duration, deactivates the sphere and sends a Stop marker,
    and then waits the inter-stimulus interval.

    The schedule is given twice: once as a plan of presentations built by
    recursion over a pass (the reference), and once as the method
    `ShowStimuliSequence`, which follows the script's nested loops step by
    step and is proved to emit exactly the reference trace. */
module StimuSchedule {
  import opened LogicalClock

  datatype Vec3 = Vec3(x: real, y: real, z: real)

  /** The two sphere objects the script creates and toggles. */
  datatype Sphere = RedSphere | BlueSphere

  /** The kind of a presentation: which pass it belongs to. */
  datatype Kind = Red | Blue | LongBlue

  /** The script's public settings that shape the schedule. */
  datatype Config = Config(
    waitForSec: real,
    stimulationDurationRedBlue: real,
    intervalDurationRedBlue: real,
    stimulationDurationLongBlue: real,
    intervalDurationLongBlue: real,
    longBlueLuminance: real,
    vectorPositions: seq<Vec3>)

  /** The settings as the script declares them: centre, nasal, temporal,
      superior and inferior locations two units ahead of the viewer. */
  const DefaultConfig := Config(
    30.0, 0.5, 3.0, 8.0, 8.0, 6000.0,
    [ Vec3(0.0, 0.0, 2.0), Vec3(-0.73, 0.0, 2.0), Vec3(0.73, 0.0, 2.0),
      Vec3(0.0, 0.73, 2.0), Vec3(0.0, -0.73, 2.0) ])

  function SphereOf(kind: Kind): Sphere {
    if kind == Red then RedSphere else BlueSphere
  }

  function Duration(cfg: Config, kind: Kind): real {
    if kind == LongBlue then cfg.stimulationDurationLongBlue else cfg.stimulationDurationRedBlue
  }

  function Interval(cfg: Config, kind: Kind): real {
    if kind == LongBlue then cfg.intervalDurationLongBlue else cfg.intervalDurationRedBlue
  }

  /** Clock advance from the onset of a presentation of this kind to the
      onset of the next presentation. */
  function Period(cfg: Config, kind: Kind): real {
    Elapse(Duration(cfg, kind)) + Elapse(Interval(cfg, kind))
  }

  /** One presentation: its kind, the index of its location in
      `vectorPositions`, and the clock reading when its sphere appears. */
  datatype Presentation = Presentation(kind: Kind, loc: nat, onset: real)

  /** The clock reading when a presentation's sphere is hidden again. */
  function Offset(cfg: Config, p: Presentation): real {
    p.onset + Elapse(Duration(cfg, p.kind))
  }

  /** Clock reading when the first presentation starts. */
  function LeadIn(cfg: Config): real {
    Elapse(cfg.waitForSec)
  }

  /** Clock reading when the long blue pass starts. */
  function LongStart(cfg: Config): real {
    LeadIn(cfg) + Times(2 * |cfg.vectorPositions|, Period(cfg, Red))
  }

  /** Clock reading when the script ends the run. */
  function EndTime(cfg: Config): real {
    LongStart(cfg) + Times(|cfg.vectorPositions|, Period(cfg, LongBlue))
  }

  /** A pass of one kind over the locations from index `from` on, its first
      presentation starting at `start`: the reference for one run of the
      script's inner loop. */
  function Pass(cfg: Config, kind: Kind, from: nat, start: real): (r: seq<Presentation>)
    ensures |r| == if from <= |cfg.vectorPositions| then |cfg.vectorPositions| - from else 0
    ensures forall j {:trigger r[j]} :: 0 <= j < |r| ==>
              r[j] == Presentation(kind, from + j, start + Times(j, Period(cfg, kind)))
    decreases |cfg.vectorPositions| - from
  {
    if from >= |cfg.vectorPositions| then []
    else [Presentation(kind, from, start)] + Pass(cfg, kind, from + 1, start + Period(cfg, kind))
  }

  /** The first chromatic pass: every location with the red sphere. */
  function RedPass(cfg: Config): seq<Presentation> {
    Pass(cfg, Red, 0, LeadIn(cfg))
  }

  /** The second chromatic pass: every location with the blue sphere, from
      the moment the red pass is over. */
  function BluePass(cfg: Config): seq<Presentation> {
    Pass(cfg, Blue, 0, LeadIn(cfg) + Times(|cfg.vectorPositions|, Period(cfg, Red)))
  }

  /** The two chromatic passes, as a closed form over the presentation index. */
  function ChromaticPlan(cfg: Config): (r: seq<Presentation>)
    ensures |r| == 2 * |cfg.vectorPositions|
    ensures forall k {:trigger r[k]} :: 0 <= k < |cfg.vectorPositions| ==>
              r[k] == Presentation(Red, k, LeadIn(cfg) + Times(k, Period(cfg, Red)))
    ensures forall k {:trigger r[k]} :: |cfg.vectorPositions| <= k < 2 * |cfg.vectorPositions| ==>
              r[k] == Presentation(Blue, k - |cfg.vectorPositions|, LeadIn(cfg) + Times(k, Period(cfg, Red)))
  {
    var n := |cfg.vectorPositions|;
    var blue := BluePass(cfg);
    var r := RedPass(cfg) + blue;
    assert forall k {:trigger r[k]} :: n <= k < 2 * n ==>
        r[k] == Presentation(Blue, k - n, LeadIn(cfg) + Times(k, Period(cfg, Red))) by {
      forall k | n <= k < 2 * n
        ensures r[k] == Presentation(Blue, k - n, LeadIn(cfg) + Times(k, Period(cfg, Red)))
      {
        Distribute(n, k - n, Period(cfg, Red));
        assert r[k] == blue[k - n];
      }
    }
    r
  }

  /** The long blue pass over every location. */
  function LongPlan(cfg: Config): (r: seq<Presentation>)
    ensures |r| == |cfg.vectorPositions|
    ensures forall k {:trigger r[k]} :: 0 <= k < |r| ==>
              r[k] == Presentation(LongBlue, k, LongStart(cfg) + Times(k, Period(cfg, LongBlue)))
  {
    Pass(cfg, LongBlue, 0, LongStart(cfg))
  }

  /** Every presentation of the run, in order: 3N of them for N locations. */
  function Plan(cfg: Config): (r: seq<Presentation>)
    ensures |r| == 3 * |cfg.vectorPositions|
  {
    ChromaticPlan(cfg) + LongPlan(cfg)
  }

  /** The passes of the run: red over every location, then blue, then long
      blue, each pass visiting the locations in array order. */
  lemma PlanOrder(cfg: Config)
    ensures var r, n := Plan(cfg), |cfg.vectorPositions|;
            forall k {:trigger r[k]} :: 0 <= k < |r| ==>
              && r[k].kind == (if k < n then Red else if k < 2 * n then Blue else LongBlue)
              && r[k].loc == (if k < n then k else if k < 2 * n then k - n else k - 2 * n)
  {
  }

  /** The timing of the run: the first presentation starts when the lead-in
      is over, each next one starts one period (duration plus interval of the
      previous kind) after the previous one, and the run ends one long period
      after the last one started. */
  lemma PlanTiming(cfg: Config)
    ensures var r := Plan(cfg);
            && (|r| > 0 ==> r[0].onset == LeadIn(cfg))
            && (forall k {:trigger r[k]} :: 0 <= k < |r| - 1 ==>
                  r[k + 1].onset == r[k].onset + Period(cfg, r[k].kind))
            && (|r| > 0 ==> r[|r| - 1].onset + Period(cfg, LongBlue) == EndTime(cfg))
  {
    var n := |cfg.vectorPositions|;
    var r := Plan(cfg);
    forall k | 0 <= k < |r| - 1
      ensures r[k + 1].onset == r[k].onset + Period(cfg, r[k].kind)
    {
      if k + 1 < 2 * n {
        Distribute(k, 1, Period(cfg, Red));
      } else if k + 1 == 2 * n {
      } else {
        Distribute(k - 2 * n, 1, Period(cfg, LongBlue));
      }
    }
    if |r| > 0 {
      Distribute(n - 1, 1, Period(cfg, LongBlue));
    }
  }

  /** Whether a marker opens or closes a presentation. */
  datatype Edge = Start | Stop

  /** An observable step of the script, in the order it is taken. */
  datatype Action =
    | SetActive(sphere: Sphere, active: bool)            // GameObject.SetActive
    | Marker(edge: Edge, kind: Kind, loc: nat)           // SendEvent on the marker stream
    | AdjustMaterial(sphere: Sphere, luminance: real)    // recolouring a sphere
    | EndRun

  datatype Event = Event(time: real, action: Action)

  /** The four steps of one presentation. */
  function Present(cfg: Config, p: Presentation): seq<Event> {
    [ Event(p.onset, SetActive(SphereOf(p.kind), true)),
      Event(p.onset, Marker(Start, p.kind, p.loc)),
      Event(Offset(cfg, p), SetActive(SphereOf(p.kind), false)),
      Event(Offset(cfg, p), Marker(Stop, p.kind, p.loc)) ]
  }

  /** The steps of a sequence of presentations, one after the other. */
  function Expand(cfg: Config, ps: seq<Presentation>): (r: seq<Event>)
    ensures |r| == 4 * |ps|
  {
    if ps == [] then [] else Present(cfg, ps[0]) + Expand(cfg, ps[1..])
  }

  /** Block `k` of four events of a plan's trace is exactly presentation `k`:
      the trace holds the presentations in plan order and nothing else. */
  lemma {:induction false} ExpandAt(cfg: Config, ps: seq<Presentation>)
    ensures forall k, m {:trigger Present(cfg, ps[k])[m]} :: 0 <= k < |ps| && 0 <= m < 4 ==>
              Expand(cfg, ps)[4 * k + m] == Present(cfg, ps[k])[m]
  {
    if ps != [] {
      ExpandAt(cfg, ps[1..]);
      forall k, m | 0 <= k < |ps| && 0 <= m < 4
        ensures Expand(cfg, ps)[4 * k + m] == Present(cfg, ps[k])[m]
      {
        if k > 0 {
          assert Expand(cfg, ps)[4 * k + m] == Expand(cfg, ps[1..])[4 * (k - 1) + m];
          assert ps[1..][k - 1] == ps[k];
        }
      }
    }
  }

  /** The reference trace of a whole run. */
  function Trace(cfg: Config): seq<Event> {
    Expand(cfg, ChromaticPlan(cfg))
    + [Event(LongStart(cfg), AdjustMaterial(BlueSphere, cfg.longBlueLuminance))]
    + Expand(cfg, LongPlan(cfg))
    + [Event(EndTime(cfg), EndRun)]
  }


  lemma {:induction false} ExpandSnoc(cfg: Config, ps: seq<Presentation>, p: Presentation)
    ensures Expand(cfg, ps + [p]) == Expand(cfg, ps) + Present(cfg, p)
  {
    if ps == [] {
      assert [p][1..] == [];
    } else {
      assert (ps + [p])[1..] == ps[1..] + [p];
      ExpandSnoc(cfg, ps[1..], p);
    }
  }

  /** The trace of two plans one after the other is the one trace followed
      by the other. */
  lemma {:induction false} ExpandAppend(cfg: Config, ps: seq<Presentation>, qs: seq<Presentation>)
    ensures Expand(cfg, ps + qs) == Expand(cfg, ps) + Expand(cfg, qs)
  {
    if ps == [] {
      assert ps + qs == qs;
    } else {
      assert (ps + qs)[0] == ps[0];
      assert (ps + qs)[1..] == ps[1..] + qs;
      ExpandAppend(cfg, ps[1..], qs);
    }
  }

  /** Extending a prefix of a plan by one presentation extends its trace by
      that presentation's four events. */
  lemma ExpandPrefix(cfg: Config, ps: seq<Presentation>, k: nat)
    requires k < |ps|
    ensures Expand(cfg, ps[..k + 1]) == Expand(cfg, ps[..k]) + Present(cfg, ps[k])
  {
    assert ps[..k + 1] == ps[..k] + [ps[k]];
    ExpandSnoc(cfg, ps[..k], ps[k]);
  }

  /** One iteration of the script's presentation loops: show the sphere,
      send the Start marker, wait the stimulation duration, hide the sphere,
      send the Stop marker, wait the interval. */
  method ShowOnce(cfg: Config, kind: Kind, loc: nat, clock: real) returns (events: seq<Event>, next: real)
    ensures events == Present(cfg, Presentation(kind, loc, clock))
    ensures next == clock + Period(cfg, kind)
  {
    var sphere := SphereOf(kind);
    var now := clock;
    events := [Event(now, SetActive(sphere, true))];
    events := events + [Event(now, Marker(Start, kind, loc))];
    now := now + Elapse(Duration(cfg, kind));
    events := events + [Event(now, SetActive(sphere, false))];
    events := events + [Event(now, Marker(Stop, kind, loc))];
    now := now + Elapse(Interval(cfg, kind));
    next := now;
  }

  /** One run of the script's inner chromatic loop: every location in turn
      with the red sphere when `isRed` holds and with the blue one otherwise. */
  method ChromaticPass(cfg: Config, isRed: bool, start: real) returns (trace: seq<Event>, clock: real)
    ensures trace == Expand(cfg, Pass(cfg, if isRed then Red else Blue, 0, start))
    ensures clock == start + Times(|cfg.vectorPositions|, Period(cfg, Red))
  {
    var n := |cfg.vectorPositions|;
    var kind := if isRed then Red else Blue;
    ghost var pass := Pass(cfg, kind, 0, start);
    assert Period(cfg, kind) == Period(cfg, Red);
    trace, clock := [], start;
    var i := 0;
    while i < n
      invariant 0 <= i <= n
      invariant trace == Expand(cfg, pass[..i])
      invariant clock == start + Times(i, Period(cfg, Red))
    {
      assert pass[i] == Presentation(kind, i, clock);
      var events;
      events, clock := ShowOnce(cfg, kind, i, clock);
      trace := trace + events;
      ExpandPrefix(cfg, pass, i);
      i := i + 1;
    }
    assert pass[..n] == pass;
  }

  /** The first half of the coroutine `ShowStimuliSequence`: the lead-in
      wait and the two chromatic passes. `isRed` starts true and is cleared
      once, after the first pass. */
  method ChromaticPasses(cfg: Config) returns (trace: seq<Event>, clock: real)
    ensures trace == Expand(cfg, ChromaticPlan(cfg))
    ensures clock == LongStart(cfg)
  {
    var n := |cfg.vectorPositions|;
    var isRed := true;
    trace := [];
    clock := 0.0;
    clock := clock + Elapse(cfg.waitForSec);

    var j := 0;
    while j < 2
      invariant 0 <= j <= 2
      invariant isRed <==> j == 0
      invariant j == 0 ==> trace == [] && clock == LeadIn(cfg)
      invariant j == 1 ==> trace == Expand(cfg, RedPass(cfg))
                           && clock == LeadIn(cfg) + Times(n, Period(cfg, Red))
      invariant j == 2 ==> trace == Expand(cfg, RedPass(cfg)) + Expand(cfg, BluePass(cfg))
                           && clock == LeadIn(cfg) + Times(2 * n, Period(cfg, Red))
    {
      var events;
      events, clock := ChromaticPass(cfg, isRed, clock);
      trace := trace + events;
      if j == 1 {
        Distribute(n, n, Period(cfg, Red));
      }
      isRed := false;
      j := j + 1;
    }
    ExpandAppend(cfg, RedPass(cfg), BluePass(cfg));
  }

  /** The second half of the coroutine: the blue sphere is recoloured to the
      long-blue luminance and every location is shown once more, loop for loop. */
  method LongBluePass(cfg: Config, start: real) returns (trace: seq<Event>, clock: real)
    requires start == LongStart(cfg)
    ensures trace == [Event(start, AdjustMaterial(BlueSphere, cfg.longBlueLuminance))]
                     + Expand(cfg, LongPlan(cfg))
    ensures clock == EndTime(cfg)
  {
    var n := |cfg.vectorPositions|;
    ghost var long := LongPlan(cfg);
    clock := start;
    trace := [Event(clock, AdjustMaterial(BlueSphere, cfg.longBlueLuminance))];
    ghost var prefix := trace;

    var j := 0;
    while j < n
      invariant 0 <= j <= n
      invariant trace == prefix + Expand(cfg, long[..j])
      invariant clock == LongStart(cfg) + Times(j, Period(cfg, LongBlue))
    {
      assert long[j] == Presentation(LongBlue, j, clock);
      var events;
      events, clock := ShowOnce(cfg, LongBlue, j, clock);
      trace := trace + events;
      ExpandPrefix(cfg, long, j);
      j := j + 1;
    }
    assert long[..n] == long;
  }

  /** The coroutine `ShowStimuliSequence`: it emits exactly the reference
      trace and ends the run at the reference end time. */
  method ShowStimuliSequence(cfg: Config) returns (trace: seq<Event>, clock: real)
    ensures trace == Trace(cfg)
    ensures clock == EndTime(cfg)
  {
    var chromatic, long;
    chromatic, clock := ChromaticPasses(cfg);
    long, clock := LongBluePass(cfg, clock);
    trace := chromatic + long + [Event(clock, EndRun)];
  }

  /** The run lasts the lead-in plus 2N chromatic periods plus N long
      periods; with non-negative settings every wait is exactly its setting. */
  lemma EndTimeClosedForm(cfg: Config)
    ensures EndTime(cfg) == Elapse(cfg.waitForSec)
              + (2 * |cfg.vectorPositions|) as real
                * (Elapse(cfg.stimulationDurationRedBlue) + Elapse(cfg.intervalDurationRedBlue))
              + |cfg.vectorPositions| as real
                * (Elapse(cfg.stimulationDurationLongBlue) + Elapse(cfg.intervalDurationLongBlue))
    ensures && cfg.waitForSec >= 0.0
            && cfg.stimulationDurationRedBlue >= 0.0 && cfg.intervalDurationRedBlue >= 0.0
            && cfg.stimulationDurationLongBlue >= 0.0 && cfg.intervalDurationLongBlue >= 0.0
            ==> EndTime(cfg) == cfg.waitForSec
                  + (2 * |cfg.vectorPositions|) as real
                    * (cfg.stimulationDurationRedBlue + cfg.intervalDurationRedBlue)
                  + |cfg.vectorPositions| as real
                    * (cfg.stimulationDurationLongBlue + cfg.intervalDurationLongBlue)
  {
    TimesIsProduct(2 * |cfg.vectorPositions|, Period(cfg, Red));
    TimesIsProduct(|cfg.vectorPositions|, Period(cfg, LongBlue));
  }
}
