/** The pupil sample `StimuTest` pushes on its pupil stream once a frame.

    The headset reports one pupil radius per eye together with a validity
    flag. The script scales a valid radius by 1000 and writes -1 for an
    invalid one, and sends the two channels as one sample, left eye first.
    `Decode` reads one channel back as an analysis would: a negative
    channel is "no reading", anything else is the radius scaled back. */
module PupilSample {
  import opened Outcomes

  /** One eye's pupil-radius reading as the headset reports it. */
  datatype Reading = Reading(isValid: bool, value: real)

  /** The value written for an invalid reading. */
  const Sentinel: real := -1.0

  /** The scale from the reported radius to the channel value. */
  const Scale: real := 1000.0

  /** One channel of the sample. */
  function Channel(reading: Reading): (c: real)
    ensures c >= 0.0 <==> reading.isValid && reading.value >= 0.0
    ensures reading.isValid ==> c / Scale == reading.value
    ensures !reading.isValid ==> c == Sentinel
  {
    if reading.isValid then reading.value * Scale else Sentinel
  }

  /** The two-channel sample, left eye first. */
  function Sample(left: Reading, right: Reading): (s: seq<real>)
    ensures |s| == 2
    ensures s[0] == Channel(left) && s[1] == Channel(right)
    ensures Decode(s[0]) == Recoverable(left)
    ensures Decode(s[1]) == Recoverable(right)
  {
    ChannelRoundTrip(left);
    ChannelRoundTrip(right);
    [Channel(left), Channel(right)]
  }

  /** What a reader of one channel recovers: no reading for a negative
      channel, otherwise the radius. */
  function Decode(channel: real): Option<real> {
    if channel < 0.0 then None else Some(channel / Scale)
  }

  /** The reading a channel is meant to carry: the radius of a valid,
      non-negative reading, and nothing otherwise. */
  function Recoverable(reading: Reading): Option<real> {
    if reading.isValid && reading.value >= 0.0 then Some(reading.value) else None
  }

  /** Decoding a channel recovers exactly the reading it was meant to carry:
      the radius of a valid reading survives the round trip, and an invalid
      one is seen as no reading. */
  lemma ChannelRoundTrip(reading: Reading)
    ensures Decode(Channel(reading)) == Recoverable(reading)
  {
    if reading.isValid {
      assert reading.value * Scale / Scale == reading.value;
    }
  }

  /** The channel equals the sentinel exactly when the reading is invalid, or
      when a valid reading is itself -0.001, the one radius whose scaled
      value collides with the sentinel. */
  lemma SentinelExactly(reading: Reading)
    ensures Channel(reading) == Sentinel <==> !reading.isValid || reading.value == -0.001
  {
  }

  /** A frame where the left eye is lost and the right pupil measures 3.2 mm
      (0.0032 m) is sent as [-1, 3.2]. */
  lemma LostLeftEye()
    ensures Sample(Reading(false, 0.5), Reading(true, 0.0032)) == [-1.0, 3.2]
  {
  }
}
