/** What an observer of `StimuTest` sees of a run: the marker stream sent to
    the recorder, the spheres' active flags, and the clock readings at which
    both change. Every statement here is about the reference trace, which the
    coroutine model `ShowStimuliSequence` is proved to emit. */
module StimuTrace {
  import opened LogicalClock
  import opened StimuSchedule

  // ---------------------------------------------------------------- markers

  /** The events that reach the marker stream, in the order they are sent. */
  function Markers(events: seq<Event>): seq<Event> {
    if events == [] then []
    else (if events[0].action.Marker? then [events[0]] else []) + Markers(events[1..])
  }

  lemma {:induction false} MarkersAppend(a: seq<Event>, b: seq<Event>)
    ensures Markers(a + b) == Markers(a) + Markers(b)
  {
    if a == [] {
      assert a + b == b;
    } else {
      assert (a + b)[0] == a[0];
      assert (a + b)[1..] == a[1..] + b;
      MarkersAppend(a[1..], b);
    }
  }

  function StartMarker(p: Presentation): Event {
    Event(p.onset, Marker(Start, p.kind, p.loc))
  }

  function StopMarker(cfg: Config, p: Presentation): Event {
    Event(Offset(cfg, p), Marker(Stop, p.kind, p.loc))
  }

  /** A presentation sends its Start marker and then its Stop marker. */
  lemma MarkersOfPresent(cfg: Config, p: Presentation)
    ensures Markers(Present(cfg, p)) == [StartMarker(p), StopMarker(cfg, p)]
  {
    var e := Present(cfg, p);
    assert Markers([e[3]]) == [e[3]] by { assert [e[3]][1..] == []; }
    assert Markers([e[2], e[3]]) == [e[3]] by { assert [e[2], e[3]][1..] == [e[3]]; }
    assert Markers([e[1], e[2], e[3]]) == [e[1], e[3]] by {
      assert [e[1], e[2], e[3]][1..] == [e[2], e[3]];
    }
    assert e[1..] == [e[1], e[2], e[3]];
  }

  /** The markers of a plan's trace are, for each presentation in order, its
      Start marker and then its Stop marker. */
  lemma {:induction false} MarkersOfExpand(cfg: Config, ps: seq<Presentation>)
    ensures |Markers(Expand(cfg, ps))| == 2 * |ps|
    ensures forall k {:trigger ps[k]} :: 0 <= k < |ps| ==>
              && Markers(Expand(cfg, ps))[2 * k] == StartMarker(ps[k])
              && Markers(Expand(cfg, ps))[2 * k + 1] == StopMarker(cfg, ps[k])
  {
    if ps != [] {
      var p := ps[0];
      var present := Present(cfg, p);
      MarkersOfPresent(cfg, p);
      MarkersAppend(present, Expand(cfg, ps[1..]));
      MarkersOfExpand(cfg, ps[1..]);
      var m := Markers(Expand(cfg, ps));
      var rest := Markers(Expand(cfg, ps[1..]));
      forall k | 1 <= k < |ps|
        ensures m[2 * k] == StartMarker(ps[k]) && m[2 * k + 1] == StopMarker(cfg, ps[k])
      {
        assert ps[1..][k - 1] == ps[k];
        assert m[2 * k] == rest[2 * (k - 1)];
        assert m[2 * k + 1] == rest[2 * (k - 1) + 1];
      }
    }
  }

  /** The marker stream of a run holds exactly two markers per presentation
      of the plan: its Start marker and then its Stop marker. */
  lemma MarkerStream(cfg: Config)
    ensures var m, r := Markers(Trace(cfg)), Plan(cfg);
            && |m| == 2 * |r|
            && forall k {:trigger r[k]} :: 0 <= k < |r| ==>
                 m[2 * k] == StartMarker(r[k]) && m[2 * k + 1] == StopMarker(cfg, r[k])
  {
    var c, l := Expand(cfg, ChromaticPlan(cfg)), Expand(cfg, LongPlan(cfg));
    var recolor := [Event(LongStart(cfg), AdjustMaterial(BlueSphere, cfg.longBlueLuminance))];
    var end := [Event(EndTime(cfg), EndRun)];
    MarkersAppend(c + recolor + l, end);
    MarkersAppend(c + recolor, l);
    MarkersAppend(c, recolor);
    MarkersAppend(c, l);
    ExpandAppend(cfg, ChromaticPlan(cfg), LongPlan(cfg));
    MarkersOfExpand(cfg, Plan(cfg));
  }

  /** Markers strictly alternate Start, Stop, Start, Stop, ..., and each pair
      belongs to one presentation. */
  lemma MarkerAlternation(cfg: Config)
    ensures var m, r := Markers(Trace(cfg)), Plan(cfg);
            && |m| == 2 * |r|
            && forall i {:trigger m[i]} :: 0 <= i < |m| ==>
                 && m[i].action.Marker?
                 && m[i].action.edge == (if i % 2 == 0 then Start else Stop)
                 && m[i].action.kind == r[i / 2].kind
                 && m[i].action.loc == r[i / 2].loc
  {
    MarkerStream(cfg);
    var m, r := Markers(Trace(cfg)), Plan(cfg);
    forall i | 0 <= i < |m|
      ensures m[i].action.Marker? && m[i].action.edge == (if i % 2 == 0 then Start else Stop)
      ensures m[i].action.kind == r[i / 2].kind && m[i].action.loc == r[i / 2].loc
    {
      var k := i / 2;
      assert r[k] == r[k];
      if i % 2 == 0 {
        assert i == 2 * k;
      } else {
        assert i == 2 * k + 1;
      }
    }
  }

  /** Marker timing within a presentation: the first Start is sent when the
      lead-in is over, and each Stop follows its Start by exactly the
      presentation's stimulation duration. */
  lemma MarkerDurations(cfg: Config)
    ensures var m, r := Markers(Trace(cfg)), Plan(cfg);
            && |m| == 2 * |r|
            && (|m| > 0 ==> m[0].time == Elapse(cfg.waitForSec))
            && (forall k {:trigger r[k]} :: 0 <= k < |r| ==>
                  m[2 * k + 1].time - m[2 * k].time == Elapse(Duration(cfg, r[k].kind)))
  {
    MarkerStream(cfg);
    PlanTiming(cfg);
    var r := Plan(cfg);
    if |r| > 0 {
      assert r[0] == r[0];
    }
  }

  /** Marker timing between presentations: each next Start follows the
      previous Stop by exactly the previous presentation's interval. */
  lemma MarkerGaps(cfg: Config)
    ensures var m, r := Markers(Trace(cfg)), Plan(cfg);
            && |m| == 2 * |r|
            && forall k {:trigger r[k]} :: 0 <= k < |r| - 1 ==>
                 m[2 * k + 2].time - m[2 * k + 1].time == Elapse(Interval(cfg, r[k].kind))
  {
    MarkerStream(cfg);
    NoOverlap(cfg);
    var m, r := Markers(Trace(cfg)), Plan(cfg);
    forall k | 0 <= k < |r| - 1
      ensures m[2 * k + 2].time - m[2 * k + 1].time == Elapse(Interval(cfg, r[k].kind))
    {
      assert r[k + 1] == r[k + 1];
      assert 2 * k + 2 == 2 * (k + 1);
    }
  }

  /** The run ends one long-blue interval after the last Stop marker. */
  lemma MarkerRunEnd(cfg: Config)
    ensures var m := Markers(Trace(cfg));
            |m| > 0 ==> EndTime(cfg) - m[|m| - 1].time == Elapse(cfg.intervalDurationLongBlue)
  {
    MarkerStream(cfg);
    var m, r := Markers(Trace(cfg)), Plan(cfg);
    if |m| > 0 {
      var n := |cfg.vectorPositions|;
      var lp := LongPlan(cfg);
      assert r[|r| - 1] == lp[n - 1];
      assert lp[n - 1].onset == LongStart(cfg) + Times(n - 1, Period(cfg, LongBlue));
      assert |m| - 1 == 2 * (|r| - 1) + 1;
    }
  }

  /** With positive durations and intervals the marker clock readings
      strictly increase: each Start precedes its Stop, which precedes the
      next Start. */
  lemma MarkersStrictlyIncrease(cfg: Config)
    requires cfg.stimulationDurationRedBlue > 0.0 && cfg.intervalDurationRedBlue > 0.0
    requires cfg.stimulationDurationLongBlue > 0.0 && cfg.intervalDurationLongBlue > 0.0
    ensures var m := Markers(Trace(cfg));
            forall i {:trigger m[i]} :: 0 <= i < |m| - 1 ==> m[i].time < m[i + 1].time
  {
    MarkerDurations(cfg);
    MarkerGaps(cfg);
    var m, r := Markers(Trace(cfg)), Plan(cfg);
    forall i | 0 <= i < |m| - 1
      ensures m[i].time < m[i + 1].time
    {
      var k := i / 2;
      assert r[k] == r[k];
      if i % 2 == 0 {
        assert i == 2 * k && i + 1 == 2 * k + 1;
      } else {
        assert i == 2 * k + 1 && i + 1 == 2 * k + 2;
      }
    }
  }

  // ------------------------------------------------------- sphere activity

  /** The spheres active after one step, given those active before it. */
  function Step(active: set<Sphere>, action: Action): set<Sphere> {
    match action
    case SetActive(s, on) => if on then active + {s} else active - {s}
    case _ => active
  }

  /** The spheres active after replaying `events` from `active`. */
  function ActiveAfter(events: seq<Event>, active: set<Sphere>): set<Sphere> {
    if events == [] then active else ActiveAfter(events[1..], Step(active, events[0].action))
  }

  /** Every activation in `events` happens while no sphere is active, i.e.
      every `SetActive(true)` is matched by a `SetActive(false)` before the next one. */
  predicate ShowsOnlyWhenIdle(events: seq<Event>, active: set<Sphere>) {
    events == [] ||
    ((events[0].action.SetActive? && events[0].action.active ==> active == {})
     && ShowsOnlyWhenIdle(events[1..], Step(active, events[0].action)))
  }

  lemma {:induction false} ReplayAppend(a: seq<Event>, b: seq<Event>, active: set<Sphere>)
    ensures ActiveAfter(a + b, active) == ActiveAfter(b, ActiveAfter(a, active))
    ensures ShowsOnlyWhenIdle(a + b, active)
            <==> ShowsOnlyWhenIdle(a, active) && ShowsOnlyWhenIdle(b, ActiveAfter(a, active))
  {
    if a == [] {
      assert a + b == b;
    } else {
      assert (a + b)[0] == a[0];
      assert (a + b)[1..] == a[1..] + b;
      ReplayAppend(a[1..], b, Step(active, a[0].action));
    }
  }

  /** One presentation activates its sphere on an idle scene and leaves the
      scene idle again. */
  lemma PresentKeepsIdle(cfg: Config, p: Presentation)
    ensures ShowsOnlyWhenIdle(Present(cfg, p), {})
    ensures ActiveAfter(Present(cfg, p), {}) == {}
  {
    var e := Present(cfg, p);
    var s := SphereOf(p.kind);
    assert [e[3]][1..] == [];
    assert ShowsOnlyWhenIdle([e[3]], {}) && ActiveAfter([e[3]], {}) == {};
    assert [e[2], e[3]][1..] == [e[3]];
    assert Step({s}, e[2].action) == {};
    assert ActiveAfter([e[2], e[3]], {s}) == ActiveAfter([e[3]], {});
    assert ShowsOnlyWhenIdle([e[2], e[3]], {s});
    assert [e[1], e[2], e[3]][1..] == [e[2], e[3]];
    assert ActiveAfter([e[1], e[2], e[3]], {s}) == ActiveAfter([e[2], e[3]], {s});
    assert ShowsOnlyWhenIdle([e[1], e[2], e[3]], {s});
    assert e[1..] == [e[1], e[2], e[3]];
    assert Step({}, e[0].action) == {s};
    assert ActiveAfter(e, {}) == ActiveAfter(e[1..], {s});
  }

  /** A plan's trace, replayed from an idle scene, activates a sphere only
      when none is active and leaves the scene idle. */
  lemma {:induction false} ExpandKeepsIdle(cfg: Config, ps: seq<Presentation>)
    ensures ShowsOnlyWhenIdle(Expand(cfg, ps), {})
    ensures ActiveAfter(Expand(cfg, ps), {}) == {}
  {
    if ps != [] {
      var present := Present(cfg, ps[0]);
      PresentKeepsIdle(cfg, ps[0]);
      ReplayAppend(present, Expand(cfg, ps[1..]), {});
      ExpandKeepsIdle(cfg, ps[1..]);
    }
  }

  lemma SizeOfStep(active: set<Sphere>, action: Action)
    requires |active| <= 1
    requires action.SetActive? && action.active ==> active == {}
    ensures |Step(active, action)| <= 1
  {
    if action.SetActive? && !action.active {
      assert Step(active, action) <= active;
      if Step(active, action) != {} {
        var x :| x in Step(active, action);
        assert |active - {x}| == |active| - 1;
        assert active - {x} == {};
        assert active == {x};
      }
    }
  }

  /** If activations only happen on an idle scene, then after every prefix
      of the events at most one sphere is active. */
  lemma {:induction false} IdleShowsBoundActive(events: seq<Event>, active: set<Sphere>)
    requires |active| <= 1
    requires ShowsOnlyWhenIdle(events, active)
    ensures forall n {:trigger events[..n]} :: 0 <= n <= |events| ==> |ActiveAfter(events[..n], active)| <= 1
  {
    if events != [] {
      var next := Step(active, events[0].action);
      SizeOfStep(active, events[0].action);
      IdleShowsBoundActive(events[1..], next);
      forall n | 1 <= n <= |events|
        ensures |ActiveAfter(events[..n], active)| <= 1
      {
        assert events[..n][1..] == events[1..][..n - 1];
      }
      assert events[..0] == [];
    }
  }

  /** At most one sphere is active at any point of the run, every activation
      finds both spheres inactive, and both are inactive when the run ends. */
  lemma AtMostOneSphereActive(cfg: Config)
    ensures ShowsOnlyWhenIdle(Trace(cfg), {})
    ensures ActiveAfter(Trace(cfg), {}) == {}
    ensures forall n {:trigger Trace(cfg)[..n]} :: 0 <= n <= |Trace(cfg)| ==>
              |ActiveAfter(Trace(cfg)[..n], {})| <= 1
  {
    var c, l := Expand(cfg, ChromaticPlan(cfg)), Expand(cfg, LongPlan(cfg));
    var recolor := [Event(LongStart(cfg), AdjustMaterial(BlueSphere, cfg.longBlueLuminance))];
    var end := [Event(EndTime(cfg), EndRun)];
    ExpandKeepsIdle(cfg, ChromaticPlan(cfg));
    ExpandKeepsIdle(cfg, LongPlan(cfg));
    ReplayAppend(c, recolor, {});
    ReplayAppend(c + recolor, l, {});
    ReplayAppend(c + recolor + l, end, {});
    IdleShowsBoundActive(Trace(cfg), {});
  }

  // ------------------------------------------------------------ chronology

  /** The first chromatic pass shows and hides only the red sphere; the
      second, once `isRed` is cleared, and the long pass only the blue one. */
  lemma SpheresPerPass(cfg: Config)
    ensures var n, r, c := |cfg.vectorPositions|, ChromaticPlan(cfg), Expand(cfg, ChromaticPlan(cfg));
            forall k {:trigger r[k]} :: 0 <= k < 2 * n ==>
              var sphere := if k < n then RedSphere else BlueSphere;
              c[4 * k].action == SetActive(sphere, true) && c[4 * k + 2].action == SetActive(sphere, false)
    ensures var r, l := LongPlan(cfg), Expand(cfg, LongPlan(cfg));
            forall k {:trigger r[k]} :: 0 <= k < |r| ==>
              l[4 * k].action == SetActive(BlueSphere, true) && l[4 * k + 2].action == SetActive(BlueSphere, false)
  {
    var n, r, c := |cfg.vectorPositions|, ChromaticPlan(cfg), Expand(cfg, ChromaticPlan(cfg));
    ExpandAt(cfg, r);
    forall k | 0 <= k < 2 * n
      ensures c[4 * k] == Present(cfg, r[k])[0] && c[4 * k + 2] == Present(cfg, r[k])[2]
    {
      assert c[4 * k + 0] == Present(cfg, r[k])[0];
    }
    var long, l := LongPlan(cfg), Expand(cfg, LongPlan(cfg));
    ExpandAt(cfg, long);
    forall k | 0 <= k < |long|
      ensures l[4 * k] == Present(cfg, long[k])[0] && l[4 * k + 2] == Present(cfg, long[k])[2]
    {
      assert l[4 * k + 0] == Present(cfg, long[k])[0];
    }
  }

  /** The clock never runs backwards along the events: any event is taken no
      later than every event after it. `NewStimu` has a predicate of the
      same name over its own event type. */
  predicate Chronological(events: seq<Event>) {
    forall i, j {:trigger events[i], events[j]} :: 0 <= i < j < |events| ==> events[i].time <= events[j].time
  }

  lemma ChronologicalAppend(a: seq<Event>, b: seq<Event>)
    requires Chronological(a) && Chronological(b)
    requires a != [] && b != [] ==> a[|a| - 1].time <= b[0].time
    ensures Chronological(a + b)
  {
    var ab := a + b;
    forall i, j | 0 <= i < j < |ab|
      ensures ab[i].time <= ab[j].time
    {
      if j < |a| {
        assert ab[i] == a[i] && ab[j] == a[j];
      } else if |a| <= i {
        assert ab[i] == b[i - |a|] && ab[j] == b[j - |a|];
      } else {
        assert ab[i] == a[i] && ab[j] == b[j - |a|];
        assert a[i].time <= a[|a| - 1].time;
        assert b[0].time <= b[j - |a|].time;
      }
    }
  }

  /** One presentation's four steps are in order: shown at the onset, hidden
      at the offset. */
  lemma PresentChronological(cfg: Config, p: Presentation)
    ensures Chronological(Present(cfg, p))
    ensures Present(cfg, p)[0].time == p.onset
    ensures Present(cfg, p)[3].time == Offset(cfg, p)
  {
    var e := Present(cfg, p);
    assert p.onset <= Offset(cfg, p);
    assert e[0].time == e[1].time == p.onset;
    assert e[2].time == e[3].time == Offset(cfg, p);
  }

  /** Two chronological runs of steps, the first over by `mid` and the second
      starting no earlier than `mid` and over by `end`, form one chronological
      run that keeps the first one's start. */
  lemma Chain(a: seq<Event>, b: seq<Event>, mid: real, end: real)
    requires Chronological(a) && Chronological(b)
    requires a != [] ==> a[|a| - 1].time <= mid
    requires b != [] ==> mid <= b[0].time && b[|b| - 1].time <= end
    ensures Chronological(a + b)
    ensures a != [] ==> (a + b)[0] == a[0]
    ensures a + b != [] ==> (a + b)[|a + b| - 1].time <= if b == [] then mid else end
  {
    ChronologicalAppend(a, b);
    if b != [] {
      assert (a + b)[|a + b| - 1] == b[|b| - 1];
    } else {
      assert a + b == a;
    }
  }

  /** The steps of one pass are in order; they start at the pass's start and
      end no later than one period per remaining location after it. */
  lemma {:induction false} PassChronological(cfg: Config, kind: Kind, from: nat, start: real)
    requires from <= |cfg.vectorPositions|
    ensures var e := Expand(cfg, Pass(cfg, kind, from, start));
            && Chronological(e)
            && (e != [] ==> e[0].time == start)
            && (e != [] ==> e[|e| - 1].time <= start + Times(|cfg.vectorPositions| - from, Period(cfg, kind)))
    decreases |cfg.vectorPositions| - from
  {
    var n := |cfg.vectorPositions|;
    if from < n {
      var per := Period(cfg, kind);
      var p := Presentation(kind, from, start);
      var next := start + per;
      var present, rest := Present(cfg, p), Expand(cfg, Pass(cfg, kind, from + 1, next));
      assert Expand(cfg, Pass(cfg, kind, from, start)) == present + rest by {
        assert Pass(cfg, kind, from, start) == [p] + Pass(cfg, kind, from + 1, next);
      }
      PresentChronological(cfg, p);
      PassChronological(cfg, kind, from + 1, next);
      assert next + Times(n - (from + 1), per) == start + Times(n - from, per);
      Chain(present, rest, next, next + Times(n - (from + 1), per));
    }
  }

  /** No two presentations overlap: each next presentation starts the
      previous one's interval after it was hidden, never before. */
  lemma NoOverlap(cfg: Config)
    ensures var r := Plan(cfg);
            forall k {:trigger r[k]} :: 0 <= k < |r| - 1 ==>
              r[k + 1].onset - Offset(cfg, r[k]) == Elapse(Interval(cfg, r[k].kind)) >= 0.0
  {
    PlanTiming(cfg);
    var r := Plan(cfg);
    forall k | 0 <= k < |r| - 1
      ensures r[k + 1].onset - Offset(cfg, r[k]) == Elapse(Interval(cfg, r[k].kind))
    {
      assert r[k + 1] == r[k + 1];
    }
  }

  /** The red pass is in order and over when the blue pass is due. */
  lemma RedPassChronological(cfg: Config)
    ensures var red := Expand(cfg, RedPass(cfg));
            && Chronological(red)
            && (red != [] ==> red[|red| - 1].time <= LeadIn(cfg) + Times(|cfg.vectorPositions|, Period(cfg, Red)))
  {
    PassChronological(cfg, Red, 0, LeadIn(cfg));
  }

  /** The blue pass starts when it is due, is in order, and is over when the
      long pass is due. */
  lemma BluePassChronological(cfg: Config)
    ensures var blue := Expand(cfg, BluePass(cfg));
            && Chronological(blue)
            && (blue != [] ==> blue[0].time == LeadIn(cfg) + Times(|cfg.vectorPositions|, Period(cfg, Red)))
            && (blue != [] ==> blue[|blue| - 1].time <= LongStart(cfg))
  {
    var n, per := |cfg.vectorPositions|, Period(cfg, Red);
    var start := LeadIn(cfg) + Times(n, per);
    var blue := Expand(cfg, BluePass(cfg));
    assert Chronological(blue) && (blue != [] ==> blue[0].time == start)
        && (blue != [] ==> blue[|blue| - 1].time <= start + Times(n, Period(cfg, Blue))) by {
      assert BluePass(cfg) == Pass(cfg, Blue, 0, start);
      PassChronological(cfg, Blue, 0, start);
    }
    assert Period(cfg, Blue) == per;
    LongStartAfterBlue(cfg);
  }

  /** The long pass is due one chromatic pass after the blue pass starts. */
  lemma LongStartAfterBlue(cfg: Config)
    ensures var n, per := |cfg.vectorPositions|, Period(cfg, Red);
            LongStart(cfg) == LeadIn(cfg) + Times(n, per) + Times(n, per)
  {
    var n, per := |cfg.vectorPositions|, Period(cfg, Red);
    Distribute(n, n, per);
    assert n + n == 2 * n;
  }

  /** The chromatic presentations are in order and all hidden by the time
      the long pass starts. */
  lemma ChromaticChronological(cfg: Config)
    ensures var c := Expand(cfg, ChromaticPlan(cfg));
            Chronological(c) && (c != [] ==> c[|c| - 1].time <= LongStart(cfg))
  {
    var red, blue := Expand(cfg, RedPass(cfg)), Expand(cfg, BluePass(cfg));
    RedPassChronological(cfg);
    BluePassChronological(cfg);
    Chain(red, blue, LeadIn(cfg) + Times(|cfg.vectorPositions|, Period(cfg, Red)), LongStart(cfg));
    ExpandAppend(cfg, RedPass(cfg), BluePass(cfg));
    assert |red| == |blue|;
  }

  /** The chromatic presentations, then the recolouring, in order. */
  lemma ChromaticThenRecolor(cfg: Config)
    ensures var c := Expand(cfg, ChromaticPlan(cfg));
            var recolor := [Event(LongStart(cfg), AdjustMaterial(BlueSphere, cfg.longBlueLuminance))];
            Chronological(c + recolor)
  {
    var c := Expand(cfg, ChromaticPlan(cfg));
    var recolor := [Event(LongStart(cfg), AdjustMaterial(BlueSphere, cfg.longBlueLuminance))];
    ChromaticChronological(cfg);
    assert Chronological(recolor);
    ChronologicalAppend(c, recolor);
  }

  /** The long presentations, then the end of the run, in order, starting at
      the recolouring. */
  lemma LongThenEnd(cfg: Config)
    ensures var l := Expand(cfg, LongPlan(cfg)) + [Event(EndTime(cfg), EndRun)];
            Chronological(l) && LongStart(cfg) <= l[0].time
  {
    var l := Expand(cfg, LongPlan(cfg));
    var end := [Event(EndTime(cfg), EndRun)];
    PassChronological(cfg, LongBlue, 0, LongStart(cfg));
    assert Chronological(end);
    ChronologicalAppend(l, end);
    assert (l + end)[0] == if l == [] then end[0] else l[0];
  }

  /** Along the whole run, including the recolouring and the end of the run,
      the clock never runs backwards. */
  lemma TraceChronological(cfg: Config)
    ensures Chronological(Trace(cfg))
  {
    var c := Expand(cfg, ChromaticPlan(cfg));
    var recolor := [Event(LongStart(cfg), AdjustMaterial(BlueSphere, cfg.longBlueLuminance))];
    var l := Expand(cfg, LongPlan(cfg));
    var end := [Event(EndTime(cfg), EndRun)];
    ChromaticThenRecolor(cfg);
    LongThenEnd(cfg);
    var a, b := c + recolor, l + end;
    assert a[|a| - 1] == recolor[0];
    ChronologicalAppend(a, b);
    assert Trace(cfg) == a + b;
  }

  // --------------------------------------------------------- the defaults

  /** With the script's own settings the run makes 15 presentations, sends
      30 markers, and ends 145 s after it starts: 30 s lead-in, ten chromatic
      presentations of 3.5 s and five long ones of 16 s. */
  lemma DefaultRun()
    ensures |Plan(DefaultConfig)| == 15
    ensures |Markers(Trace(DefaultConfig))| == 30
    ensures EndTime(DefaultConfig) == 145.0
  {
    MarkerStream(DefaultConfig);
    EndTimeClosedForm(DefaultConfig);
  }
}
