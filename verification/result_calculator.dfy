/** The offline analysis of a recorded session (`resultCalculator.py`).

    The recording is a list of streams, each with a name, a series of
    samples and one timestamp per sample. The analysis keeps the streams
    whose lower-cased name contains "pupil", and separately those whose
    lower-cased name contains "marker" or "event". It splits the first
    pupil stream into a left and an optional right channel. When there is a
    marker stream it rebases both timestamp series to the first pupil
    timestamp. It then labels one vertical line per marker timestamp.

    `Analyze` follows the script as written, including its failure when
    there is no marker stream. `AnalyzeIntended` is the corrected reading,
    which plots the pupil channels without marker lines in that case. */
module ResultCalculator {
  import opened Outcomes
  import PupilSample

  // ------------------------------------------------------------ the input

  /** One sample of a stream whose samples are not numeric: a list of
      strings, or a value that is not a list. */
  datatype Sample = Listed(items: seq<string>) | Unlisted(text: string)

  /** A stream's samples: a numeric array of `width` columns, or a list of
      samples. */
  datatype Series =
    | Numeric(width: nat, rows: seq<seq<real>>)
    | Samples(samples: seq<Sample>)

  datatype Stream = Stream(name: string, series: Series, stamps: seq<real>)

  /** Every row of a numeric array has the array's width. */
  predicate Rectangular(width: nat, rows: seq<seq<real>>) {
    forall i :: 0 <= i < |rows| ==> |rows[i]| == width
  }

  /** What the recording format guarantees of a stream: a rectangular
      array, and one timestamp per sample. */
  predicate WellFormed(s: Stream) {
    match s.series
    case Numeric(width, rows) => Rectangular(width, rows) && |rows| == |s.stamps|
    case Samples(samples) => |samples| == |s.stamps|
  }

  // ------------------------------------------------------- classification

  /** Lower-casing of one character, for the ASCII letters. */
  function LowerChar(c: char): char {
    if 'A' <= c <= 'Z' then (c as int + 32) as char else c
  }

  function Lower(s: string): string {
    seq(|s|, i requires 0 <= i < |s| => LowerChar(s[i]))
  }

  /** Lower-casing twice is lower-casing once, so a name and its lower-cased
      form are classified alike. */
  lemma LowerIdempotent(s: string)
    ensures Lower(Lower(s)) == Lower(s)
  {
    var once := Lower(s);
    forall i | 0 <= i < |s|
      ensures Lower(once)[i] == once[i]
    {
      assert once[i] == LowerChar(s[i]);
    }
  }

  /** Whether `sub` occurs in `s` starting at index `i`. */
  predicate OccursAt(s: string, sub: string, i: nat) {
    i + |sub| <= |s| && s[i..i + |sub|] == sub
  }

  /** Python's `sub in s` for strings, by recursion over the start index. */
  function Contains(s: string, sub: string): bool
    decreases |s|
  {
    (|sub| <= |s| && s[..|sub|] == sub) || (s != [] && Contains(s[1..], sub))
  }

  /** `Contains` holds exactly when `sub` occurs somewhere in `s`. */
  lemma {:induction false} ContainsIff(s: string, sub: string)
    ensures Contains(s, sub) <==> exists i: nat :: OccursAt(s, sub, i)
    decreases |s|
  {
    if |sub| <= |s| && s[..|sub|] == sub {
      assert OccursAt(s, sub, 0);
    }
    if s != [] {
      ContainsIff(s[1..], sub);
      if exists i: nat :: OccursAt(s[1..], sub, i) {
        var i: nat :| OccursAt(s[1..], sub, i);
        assert s[1..][i..i + |sub|] == s[i + 1..i + 1 + |sub|];
        assert OccursAt(s, sub, i + 1);
      }
      if exists i: nat :: OccursAt(s, sub, i) {
        var i: nat :| OccursAt(s, sub, i);
        if i > 0 {
          assert s[1..][i - 1..i - 1 + |sub|] == s[i..i + |sub|];
          assert OccursAt(s[1..], sub, i - 1);
        }
      }
    } else {
      if exists i: nat :: OccursAt(s, sub, i) {
        var i: nat :| OccursAt(s, sub, i);
        assert i == 0 && |sub| == 0;
      }
    }
  }

  /** A string cannot contain a pattern whose first letter it lacks. */
  lemma {:induction false} LacksFirstLetter(s: string, sub: string)
    requires sub != [] && sub[0] !in s
    ensures !Contains(s, sub)
    decreases |s|
  {
    if s != [] {
      assert s[0] != sub[0];
      assert |sub| <= |s| ==> s[..|sub|][0] == s[0];
      LacksFirstLetter(s[1..], sub);
    }
  }

  predicate IsPupilStream(s: Stream) {
    Contains(Lower(s.name), "pupil")
  }

  predicate IsMarkerStream(s: Stream) {
    Contains(Lower(s.name), "marker") || Contains(Lower(s.name), "event")
  }

  /** The streams that satisfy `keep`, in their original order. */
  function Select(streams: seq<Stream>, keep: Stream -> bool): (r: seq<Stream>)
    ensures |r| <= |streams|
    ensures forall s :: s in r <==> s in streams && keep(s)
  {
    if streams == [] then []
    else (if keep(streams[0]) then [streams[0]] else []) + Select(streams[1..], keep)
  }

  /** Selecting from two lists one after the other is selecting from each
      and joining the results: the selection keeps the original order. */
  lemma {:induction false} SelectAppend(a: seq<Stream>, b: seq<Stream>, keep: Stream -> bool)
    ensures Select(a + b, keep) == Select(a, keep) + Select(b, keep)
  {
    if a == [] {
      assert a + b == b;
    } else {
      assert (a + b)[0] == a[0];
      assert (a + b)[1..] == a[1..] + b;
      SelectAppend(a[1..], b, keep);
    }
  }

  function PupilStreams(streams: seq<Stream>): seq<Stream> {
    Select(streams, IsPupilStream)
  }

  function MarkerStreams(streams: seq<Stream>): seq<Stream> {
    Select(streams, IsMarkerStream)
  }

  /** The two selections are independent: a stream named "Pupil_Events" is
      both a pupil stream and a marker stream. */
  lemma OneStreamInBoth(series: Series, stamps: seq<real>)
    ensures var s := Stream("Pupil_Events", series, stamps);
            PupilStreams([s]) == [s] && MarkerStreams([s]) == [s]
  {
    var s := Stream("Pupil_Events", series, stamps);
    var low := Lower(s.name);
    assert low == "pupil_events";
    assert OccursAt(low, "pupil", 0);
    assert OccursAt(low, "event", 6);
    ContainsIff(low, "pupil");
    ContainsIff(low, "event");
    assert [s][1..] == [];
  }

  // ------------------------------------------------------ pupil channels

  /** The pupil channels: the left one, and the right one when the array has
      a second column. */
  datatype Channels = Channels(left: seq<real>, right: Option<seq<real>>)

  /** Why the script stops. */
  datatype Error =
    | NoPupilStream        // pupil_streams[0] on an empty list
    | PupilNotNumeric      // the pupil stream does not hold numbers
    | NoPupilChannel       // column 0 of an array without columns
    | NoPupilTimestamps    // pupil_time[0] on an empty series
    | MarkerTimesUnbound   // marker_times read although no marker stream set it
    | MissingLabel         // fewer marker samples than marker timestamps
    | EmptyLabelList       // the first element of an empty caption list

  function Column(rows: seq<seq<real>>, j: nat): (r: seq<real>)
    requires forall i :: 0 <= i < |rows| ==> j < |rows[i]|
    ensures |r| == |rows|
  {
    seq(|rows|, i requires 0 <= i < |rows| => rows[i][j])
  }

  /** Splits the pupil array into its channels. */
  function SplitChannels(width: nat, rows: seq<seq<real>>): (r: Result<Channels, Error>)
    requires Rectangular(width, rows)
    ensures r.Failure? <==> width == 0
    ensures r.Success? ==> (r.value.right.Some? <==> width >= 2)
    ensures r.Success? ==> |r.value.left| == |rows|
    ensures r.Success? ==> forall i {:trigger r.value.left[i]} :: 0 <= i < |rows| ==> r.value.left[i] == rows[i][0]
    ensures r.Success? && width >= 2 ==> |r.value.right.value| == |rows|
    ensures r.Success? && width >= 2 ==>
              forall i {:trigger r.value.right.value[i]} :: 0 <= i < |rows| ==> r.value.right.value[i] == rows[i][1]
  {
    if width >= 2 then Success(Channels(Column(rows, 0), Some(Column(rows, 1))))
    else if width == 1 then Success(Channels(Column(rows, 0), None))
    else Failure(NoPupilChannel)
  }

  /** The rows the pupil channels were split from, rebuilt from them. */
  function Join(c: Channels): seq<seq<real>> {
    match c.right
    case None => seq(|c.left|, i requires 0 <= i < |c.left| => [c.left[i]])
    case Some(right) =>
      seq(|c.left|, i requires 0 <= i < |c.left| => [c.left[i]] + (if i < |right| then [right[i]] else []))
  }

  /** With one or two columns, splitting loses nothing: joining the channels
      gives back the array. */
  lemma SplitJoin(width: nat, rows: seq<seq<real>>)
    requires Rectangular(width, rows) && 1 <= width <= 2
    ensures SplitChannels(width, rows).Success?
    ensures Join(SplitChannels(width, rows).value) == rows
  {
    var c := SplitChannels(width, rows).value;
    var joined := Join(c);
    forall i | 0 <= i < |rows|
      ensures joined[i] == rows[i]
    {
      if width == 2 {
        assert rows[i] == [rows[i][0], rows[i][1]];
      } else {
        assert rows[i] == [rows[i][0]];
      }
    }
  }

  /** The samples the stimulus script sends, one per frame, split back into
      its left and right channel values. */
  lemma SentSamplesSplit(left: seq<PupilSample.Reading>, right: seq<PupilSample.Reading>)
    requires |left| == |right|
    ensures var rows := seq(|left|, i requires 0 <= i < |left| => PupilSample.Sample(left[i], right[i]));
            && Rectangular(2, rows)
            && SplitChannels(2, rows) == Success(Channels(
                 seq(|left|, i requires 0 <= i < |left| => PupilSample.Channel(left[i])),
                 Some(seq(|right|, i requires 0 <= i < |right| => PupilSample.Channel(right[i])))))
  {
    var rows := seq(|left|, i requires 0 <= i < |left| => PupilSample.Sample(left[i], right[i]));
    var lefts := seq(|left|, i requires 0 <= i < |left| => PupilSample.Channel(left[i]));
    var rights := seq(|right|, i requires 0 <= i < |right| => PupilSample.Channel(right[i]));
    assert Rectangular(2, rows);
    assert Column(rows, 0) == lefts;
    assert Column(rows, 1) == rights;
  }

  // ------------------------------------------------------------ rebasing

  /** Every timestamp made relative to `origin`. */
  function Rebase(stamps: seq<real>, origin: real): (r: seq<real>)
    ensures |r| == |stamps|
    ensures forall i, j {:trigger r[i], r[j]} :: 0 <= i < |r| && 0 <= j < |r| ==>
              r[i] - r[j] == stamps[i] - stamps[j]
    ensures forall i, j {:trigger r[i], r[j]} :: 0 <= i < |r| && 0 <= j < |r| ==>
              (r[i] < r[j] <==> stamps[i] < stamps[j])
    ensures |r| > 0 && origin == stamps[0] ==> r[0] == 0.0
  {
    seq(|stamps|, i requires 0 <= i < |stamps| => stamps[i] - origin)
  }

  /** Rebasing back by the opposite offset restores the timestamps. */
  lemma RebaseInverse(stamps: seq<real>, origin: real)
    ensures Rebase(Rebase(stamps, origin), -origin) == stamps
  {
  }

  // --------------------------------------------------------------- labels

  /** A marker's caption: text, or a numeric row kept whole. */
  datatype Label = Text(text: string) | Row(values: seq<real>)

  /** The caption of the `i`-th marker sample: the first element of a list,
      or the sample itself when it is not a list. */
  function LabelAt(series: Series, i: nat): (r: Result<Label, Error>)
    ensures series.Samples? && i < |series.samples| && series.samples[i].Listed? ==>
              (r.Failure? <==> series.samples[i].items == [])
    ensures series.Samples? && i < |series.samples| && series.samples[i].Listed? && series.samples[i].items != [] ==>
              r == Success(Text(series.samples[i].items[0]))
    ensures series.Samples? && i < |series.samples| && series.samples[i].Unlisted? ==>
              r == Success(Text(series.samples[i].text))
    ensures series.Numeric? && i < |series.rows| ==> r == Success(Row(series.rows[i]))
    ensures i >= (if series.Numeric? then |series.rows| else |series.samples|) ==> r == Failure(MissingLabel)
  {
    match series
    case Numeric(_, rows) =>
      if i < |rows| then Success(Row(rows[i])) else Failure(MissingLabel)
    case Samples(samples) =>
      if i >= |samples| then Failure(MissingLabel)
      else match samples[i]
        case Listed(items) => if items == [] then Failure(EmptyLabelList) else Success(Text(items[0]))
        case Unlisted(text) => Success(Text(text))
  }

  /** One vertical line of the plot: where it is, and the caption shown on
      hover. */
  datatype MarkerLine = MarkerLine(time: real, caption: Label)

  /** The marker lines for the timestamps from index `i` on. */
  function Lines(series: Series, times: seq<real>, i: nat): (r: Result<seq<MarkerLine>, Error>)
    ensures r.Success? <==> forall k {:trigger LabelAt(series, k)} :: i <= k < |times| ==> LabelAt(series, k).Success?
    ensures r.Success? ==> |r.value| == if i <= |times| then |times| - i else 0
    ensures r.Success? ==> forall k {:trigger r.value[k]} :: 0 <= k < |r.value| ==>
              LabelAt(series, i + k) == Success(r.value[k].caption) && r.value[k].time == times[i + k]
    decreases |times| - i
  {
    if i >= |times| then Success([])
    else
      var caption :- LabelAt(series, i);
      var rest :- Lines(series, times, i + 1);
      Success([MarkerLine(times[i], caption)] + rest)
  }

  /** The markers `StimuTest` sends are one-element string lists, so a
      recording of them is captioned with exactly the names that were sent,
      one line per marker at its timestamp. */
  lemma SentMarkersCaptioned(names: seq<string>, times: seq<real>)
    requires |names| == |times|
    ensures var series := Samples(seq(|names|, i requires 0 <= i < |names| => Listed([names[i]])));
            Lines(series, times, 0)
              == Success(seq(|names|, i requires 0 <= i < |names| => MarkerLine(times[i], Text(names[i]))))
  {
    var series := Samples(seq(|names|, i requires 0 <= i < |names| => Listed([names[i]])));
    var expected := seq(|names|, i requires 0 <= i < |names| => MarkerLine(times[i], Text(names[i])));
    forall k | 0 <= k < |times|
      ensures LabelAt(series, k) == Success(Text(names[k]))
    {
      assert series.samples[k] == Listed([names[k]]);
    }
    var r := Lines(series, times, 0);
    assert r.Success?;
    forall k | 0 <= k < |names|
      ensures r.value[k] == expected[k]
    {
      assert LabelAt(series, k) == Success(r.value[k].caption);
    }
    assert r.value == expected;
  }

  // ------------------------------------------------------------ the script

  /** What the script plots: the pupil timestamps, the channels, and the
      marker lines. */
  datatype Analysis = Analysis(time: seq<real>, channels: Channels, markers: seq<MarkerLine>)

  /** The pupil part of the script: the channels of the first pupil stream. */
  function PupilChannels(streams: seq<Stream>): (r: Result<Channels, Error>)
    requires forall s :: s in streams ==> WellFormed(s)
    ensures r.Success? <==> UsablePupil(streams)
    ensures r.Success? ==> |r.value.left| == |PupilStreams(streams)[0].stamps|
    ensures r.Success? ==> (r.value.right.Some? <==> PupilStreams(streams)[0].series.width >= 2)
    ensures r.Success? ==> var p := PupilStreams(streams)[0];
              && p.series.Numeric? && Rectangular(p.series.width, p.series.rows)
              && r == SplitChannels(p.series.width, p.series.rows)
  {
    var pupils := PupilStreams(streams);
    if pupils == [] then Failure(NoPupilStream)
    else
      assert pupils[0] in streams;
      assert WellFormed(pupils[0]);
      match pupils[0].series
      case Samples(_) => Failure(PupilNotNumeric)
      case Numeric(width, rows) => SplitChannels(width, rows)
  }

  /** Whether the recording has a pupil stream and the first one is a
      numeric array with at least one column. */
  predicate UsablePupil(streams: seq<Stream>) {
    var pupils := PupilStreams(streams);
    pupils != [] && pupils[0].series.Numeric? && pupils[0].series.width >= 1
  }

  /** Whether the marker part can succeed: there is a first pupil
      timestamp to rebase to, and every marker timestamp has a caption. */
  predicate Labelled(pupil: Stream, marker: Stream) {
    && pupil.stamps != []
    && forall k {:trigger LabelAt(marker.series, k)} :: 0 <= k < |marker.stamps| ==> LabelAt(marker.series, k).Success?
  }

  /** The marker part of the script once a marker stream exists: both
      series rebased to the first pupil timestamp, then one labelled line
      per marker timestamp. */
  function WithMarkers(pupil: Stream, marker: Stream, channels: Channels): (r: Result<Analysis, Error>)
    ensures r.Success? <==> Labelled(pupil, marker)
    ensures r.Success? ==> && r.value.channels == channels
                           && |r.value.time| == |pupil.stamps| && r.value.time[0] == 0.0
                           && |r.value.markers| == |marker.stamps|
  {
    if pupil.stamps == [] then Failure(NoPupilTimestamps)
    else
      var origin := pupil.stamps[0];
      var lines :- Lines(marker.series, Rebase(marker.stamps, origin), 0);
      Success(Analysis(Rebase(pupil.stamps, origin), channels, lines))
  }

  /** The script as written. Without a marker stream, the loop over the
      marker timestamps reads a name that was never bound and the script
      stops. */
  function Analyze(streams: seq<Stream>): (r: Result<Analysis, Error>)
    requires forall s :: s in streams ==> WellFormed(s)
    ensures r.Success? <==> && UsablePupil(streams) && MarkerStreams(streams) != []
                            && Labelled(PupilStreams(streams)[0], MarkerStreams(streams)[0])
  {
    var channels :- PupilChannels(streams);
    var markers := MarkerStreams(streams);
    if markers == [] then Failure(MarkerTimesUnbound)
    else WithMarkers(PupilStreams(streams)[0], markers[0], channels)
  }

  /** The script as its empty `marker_lines` list and its guard on the
      marker streams intend: without a marker stream it plots the pupil
      channels on their own timestamps and draws no marker lines. */
  function AnalyzeIntended(streams: seq<Stream>): (r: Result<Analysis, Error>)
    requires forall s :: s in streams ==> WellFormed(s)
    ensures r.Success? <==> && UsablePupil(streams)
                            && (MarkerStreams(streams) != [] ==>
                                  Labelled(PupilStreams(streams)[0], MarkerStreams(streams)[0]))
  {
    var channels :- PupilChannels(streams);
    var markers := MarkerStreams(streams);
    if markers == [] then Success(Analysis(PupilStreams(streams)[0].stamps, channels, []))
    else WithMarkers(PupilStreams(streams)[0], markers[0], channels)
  }

  /** A successful analysis rebases the first pupil stream's timestamps so
      that they start at zero, and draws one line per timestamp of the first
      marker stream, at that timestamp minus the first pupil timestamp, with
      that marker's caption. */
  lemma AnalyzeRebases(streams: seq<Stream>)
    requires forall s :: s in streams ==> WellFormed(s)
    ensures var r := Analyze(streams);
            r.Success? ==>
              var p, m := PupilStreams(streams)[0], MarkerStreams(streams)[0];
              && p.stamps != []
              && r.value.time == Rebase(p.stamps, p.stamps[0])
              && r.value.time[0] == 0.0
              && r.value.channels == PupilChannels(streams).value
              && |r.value.markers| == |m.stamps|
              && forall k {:trigger r.value.markers[k]} :: 0 <= k < |m.stamps| ==>
                   && r.value.markers[k].time == m.stamps[k] - p.stamps[0]
                   && LabelAt(m.series, k) == Success(r.value.markers[k].caption)
  {
    var r := Analyze(streams);
    if r.Success? {
      var p, m := PupilStreams(streams)[0], MarkerStreams(streams)[0];
      var lines := Lines(m.series, Rebase(m.stamps, p.stamps[0]), 0);
      assert lines.Success?;
    }
  }

  /** Only the first pupil stream and the first marker stream matter:
      streams recorded after them change nothing. */
  lemma FirstStreamsOnly(streams: seq<Stream>, later: seq<Stream>)
    requires forall s :: s in streams + later ==> WellFormed(s)
    requires PupilStreams(streams) != [] && MarkerStreams(streams) != []
    ensures forall s :: s in streams ==> WellFormed(s)
    ensures Analyze(streams + later) == Analyze(streams)
  {
    forall s | s in streams
      ensures WellFormed(s)
    {
      assert s in streams + later;
    }
    SelectAppend(streams, later, IsPupilStream);
    SelectAppend(streams, later, IsMarkerStream);
    var p, m := PupilStreams(streams), MarkerStreams(streams);
    assert PupilStreams(streams + later)[0] == p[0];
    assert MarkerStreams(streams + later)[0] == m[0];
  }

  /** The correction changes nothing when there is a marker stream, and
      without one it succeeds exactly when the pupil part does, with the
      pupil timestamps as recorded and no marker lines. */
  lemma IntendedDiffersOnlyWithoutMarkers(streams: seq<Stream>)
    requires forall s :: s in streams ==> WellFormed(s)
    ensures MarkerStreams(streams) != [] ==> AnalyzeIntended(streams) == Analyze(streams)
    ensures MarkerStreams(streams) == [] ==>
              (AnalyzeIntended(streams).Success? <==> PupilChannels(streams).Success?)
    ensures MarkerStreams(streams) == [] && PupilChannels(streams).Success? ==>
              AnalyzeIntended(streams).value ==
                Analysis(PupilStreams(streams)[0].stamps, PupilChannels(streams).value, [])
  {
  }

  /** As written, every recording with a usable pupil stream but no marker
      stream makes the script stop. */
  lemma AsWrittenStopsWithoutMarkers(streams: seq<Stream>)
    requires forall s :: s in streams ==> WellFormed(s)
    requires PupilChannels(streams).Success? && MarkerStreams(streams) == []
    ensures Analyze(streams) == Failure(MarkerTimesUnbound)
    ensures AnalyzeIntended(streams).Success?
  {
  }

  /** The letters of the pupil outlet's name, lower-cased. */
  lemma PupilOutletLetters()
    ensures Lower("UnityPupilData") == "unitypupildata"
    ensures 'm' !in "unitypupildata" && 'e' !in "unitypupildata"
    ensures "unitypupildata"[5..10] == "pupil"
  {
    var n, l := "UnityPupilData", "unitypupildata";
    forall i | 0 <= i < |l|
      ensures Lower(n)[i] == l[i]
    {
      assert Lower(n)[i] == LowerChar(n[i]);
    }
    forall i | 0 <= i < 5
      ensures l[5..10][i] == "pupil"[i]
    {
      assert l[5..10][i] == l[5 + i];
    }
  }

  /** The letters of the event outlet's name, lower-cased. */
  lemma EventOutletLetters()
    ensures Lower("UnityEventStream") == "unityeventstream"
    ensures 'p' !in "unityeventstream"
    ensures "unityeventstream"[5..10] == "event"
  {
    var n, l := "UnityEventStream", "unityeventstream";
    forall i | 0 <= i < |l|
      ensures Lower(n)[i] == l[i]
    {
      assert Lower(n)[i] == LowerChar(n[i]);
    }
    forall i | 0 <= i < 5
      ensures l[5..10][i] == "event"[i]
    {
      assert l[5..10][i] == l[5 + i];
    }
  }

  /** A stream named like the stimulus script's pupil outlet,
      "UnityPupilData", is a pupil stream and not a marker stream. */
  lemma PupilOutletClassified(s: Stream)
    requires s.name == "UnityPupilData"
    ensures IsPupilStream(s) && !IsMarkerStream(s)
  {
    PupilOutletLetters();
    var low := Lower(s.name);
    assert OccursAt(low, "pupil", 5);
    ContainsIff(low, "pupil");
    LacksFirstLetter(low, "marker");
    LacksFirstLetter(low, "event");
  }

  /** A stream named like the stimulus script's event outlet,
      "UnityEventStream", is a marker stream and not a pupil stream. */
  lemma EventOutletClassified(s: Stream)
    requires s.name == "UnityEventStream"
    ensures IsMarkerStream(s) && !IsPupilStream(s)
  {
    EventOutletLetters();
    var low := Lower(s.name);
    assert OccursAt(low, "event", 5);
    ContainsIff(low, "event");
    LacksFirstLetter(low, "pupil");
  }

  /** A recording holding only the pupil outlet: as written the script
      stops; corrected, it plots both channels with no marker lines. */
  lemma PupilOnlyRecording(s: Stream)
    requires s == Stream("UnityPupilData", Numeric(2, [[3.2, 3.1]]), [10.0])
    ensures Analyze([s]) == Failure(MarkerTimesUnbound)
    ensures AnalyzeIntended([s]) == Success(Analysis([10.0], Channels([3.2], Some([3.1])), []))
  {
    PupilOutletClassified(s);
    assert [s][1..] == [];
    assert PupilStreams([s]) == [s];
    assert MarkerStreams([s]) == [];
    var rows := s.series.rows;
    assert SplitChannels(2, rows) == Success(Channels([3.2], Some([3.1]))) by {
      assert Column(rows, 0) == [3.2];
      assert Column(rows, 1) == [3.1];
    }
    assert PupilChannels([s]) == SplitChannels(2, rows);
    AsWrittenStopsWithoutMarkers([s]);
  }

  /** A recording holding one pupil stream and then one marker stream
      selects each of them once. */
  lemma PairSelection(pupil: Stream, event: Stream)
    requires IsPupilStream(pupil) && !IsMarkerStream(pupil)
    requires IsMarkerStream(event) && !IsPupilStream(event)
    ensures PupilStreams([pupil, event]) == [pupil] && MarkerStreams([pupil, event]) == [event]
  {
    var streams := [pupil, event];
    assert streams[1..] == [event] && [event][1..] == [];
    assert Select([event], IsPupilStream) == [] + Select([], IsPupilStream);
    assert Select(streams, IsPupilStream) == [pupil] + Select([event], IsPupilStream);
    assert Select([event], IsMarkerStream) == [event] + Select([], IsMarkerStream);
    assert Select(streams, IsMarkerStream) == [] + Select([event], IsMarkerStream);
  }

  /** The two pupil samples of the rig recording below, split. */
  lemma RigChannels(rows: seq<seq<real>>)
    requires rows == [[3.2, 3.1], [3.0, 2.9]]
    ensures Rectangular(2, rows)
    ensures SplitChannels(2, rows) == Success(Channels([3.2, 3.0], Some([3.1, 2.9])))
  {
    assert Column(rows, 0) == [3.2, 3.0];
    assert Column(rows, 1) == [3.1, 2.9];
  }

  /** The marker part of the rig recording below. */
  lemma RigMarkers(pupil: Stream, event: Stream, channels: Channels)
    requires pupil.stamps == [10.0, 10.5]
    requires event == Stream("UnityEventStream", Samples([Listed(["Start"])]), [10.5])
    ensures WithMarkers(pupil, event, channels) ==
              Success(Analysis([0.0, 0.5], channels, [MarkerLine(0.5, Text("Start"))]))
  {
    assert Rebase(pupil.stamps, 10.0) == [0.0, 0.5];
    var times := Rebase(event.stamps, 10.0);
    assert times == [0.5];
    assert pupil.stamps[0] == 10.0;
    assert Lines(event.series, times, 0) == Success([MarkerLine(0.5, Text("Start"))]) by {
      var line := MarkerLine(0.5, Text("Start"));
      assert event.series.samples[0] == Listed(["Start"]);
      assert LabelAt(event.series, 0) == Success(Text("Start"));
      assert Lines(event.series, times, 1) == Success([]);
      assert times[0] == 0.5;
      assert [line] + [] == [line];
    }
  }

  /** A recording of the rig's two outlets, pupil samples at 10.0 s and
      10.5 s and one "Start" marker at 10.5 s: the script plots both
      channels from time zero and draws one line, half a second in. */
  lemma RigRecording(pupil: Stream, event: Stream)
    requires pupil == Stream("UnityPupilData", Numeric(2, [[3.2, 3.1], [3.0, 2.9]]), [10.0, 10.5])
    requires event == Stream("UnityEventStream", Samples([Listed(["Start"])]), [10.5])
    ensures Analyze([pupil, event]) ==
              Success(Analysis([0.0, 0.5], Channels([3.2, 3.0], Some([3.1, 2.9])), [MarkerLine(0.5, Text("Start"))]))
  {
    var channels := Channels([3.2, 3.0], Some([3.1, 2.9]));
    PupilOutletClassified(pupil);
    EventOutletClassified(event);
    PairSelection(pupil, event);
    RigChannels(pupil.series.rows);
    assert PupilChannels([pupil, event]) == Success(channels);
    RigMarkers(pupil, event, channels);
  }
}
