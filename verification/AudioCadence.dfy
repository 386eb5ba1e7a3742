/**
 How many audio samples accompany each video frame (GetAudioSamplesPerFrame).  Frame rates
 that do not divide the audio rate follow a cadence of five frames.
 */
module AudioCadence {
  import opened ModArith

  datatype AudioRate = Audio48K | Audio96K | Audio192K

  datatype FrameRate =
    | Rate12000 | Rate11988 | Rate6000 | Rate5994 | Rate5000 | Rate4800 | Rate4795
    | Rate3000 | Rate2997 | Rate2500 | Rate2400 | Rate2398 | Rate1500 | Rate1498 | RateUnknown

  /** Two fields, or two links, each at twice the rate. */
  function Doubled(rate: FrameRate): FrameRate {
    match rate
    case Rate3000 => Rate6000
    case Rate2997 => Rate5994
    case Rate2500 => Rate5000
    case Rate2400 => Rate4800
    case Rate2398 => Rate4795
    case _ => rate
  }

  /** The count for frame `c` of the cadence, `c` taken modulo five. */
  function CadenceSamples(audio: AudioRate, rate: FrameRate, c: nat): nat
    requires c < 5
  {
    match audio
    case Audio48K =>
      (match rate
       case Rate12000 => 400
       case Rate11988 => if c == 1 || c == 3 then 401 else 400
       case Rate6000 => 800
       case Rate5994 => if c == 0 then 800 else 801
       case Rate5000 => 960
       case Rate4800 => 1000
       case Rate4795 => 1001
       case Rate3000 => 1600
       case Rate2997 => if c == 1 || c == 3 then 1601 else 1602
       case Rate2500 => 1920
       case Rate2400 => 2000
       case Rate2398 => 2002
       case Rate1500 => 3200
       case Rate1498 => if c == 0 then 3204 else 3203
       case RateUnknown => 0)
    case Audio96K =>
      (match rate
       case Rate6000 => 1600
       case Rate5994 => if c == 1 || c == 3 then 1601 else 1602
       case Rate5000 => 1920
       case Rate3000 => 3200
       case Rate2997 => if c == 0 then 3204 else 3203
       case Rate2500 => 3840
       case Rate2400 => 4000
       case Rate2398 => 4004
       case Rate1500 => 6400
       case Rate1498 => if c == 0 then 6408 else 6406
       case _ => 0)
    case Audio192K =>
      (match rate
       case Rate12000 => 1600
       case Rate11988 => if c == 1 || c == 3 then 1601 else 1602
       case Rate6000 => 3200
       case Rate5994 => if c == 0 then 3204 else 3203
       case Rate5000 => 3840
       case Rate4800 => 4000
       case Rate4795 => 4004
       case Rate3000 => 6400
       case Rate2997 => if c <= 1 then 6407 else 6406
       case Rate2500 => 7680
       case Rate2400 => 8000
       case Rate2398 => 8008
       case Rate1500 => 12800
       case Rate1498 => if c <= 3 then 12813 else 12812
       case RateUnknown => 0)
  }

  /** The rate frames, fields or links come at. */
  function Effective(rate: FrameRate, double: bool): FrameRate {
    if double then Doubled(rate) else rate
  }

  /** GetAudioSamplesPerFrame. */
  function SamplesPerFrame(audio: AudioRate, rate: FrameRate, double: bool, frame: nat): nat {
    CadenceSamples(audio, Effective(rate, double), frame % 5)
  }

  /** The samples handed out for the first `n` frames. */
  function Handed(audio: AudioRate, rate: FrameRate, double: bool, n: nat): nat {
    if n == 0 then 0 else Handed(audio, rate, double, n - 1) + SamplesPerFrame(audio, rate, double, n - 1)
  }

  /** The pairs the table serves. */
  predicate Supported(audio: AudioRate, rate: FrameRate) {
    && rate != RateUnknown
    && (audio == Audio96K ==> rate != Rate12000 && rate != Rate11988 && rate != Rate4800 && rate != Rate4795)
  }

  // ----- the exact rates -----

  function Hertz(audio: AudioRate): nat {
    match audio
    case Audio48K => 48000
    case Audio96K => 96000
    case Audio192K => 192000
  }

  /** Frames per second are this over that: 1001 for the NTSC rates, 1000 otherwise. */
  function FramesOver(rate: FrameRate): (nat, nat) {
    match rate
    case Rate12000 => (120000, 1000)
    case Rate11988 => (120000, 1001)
    case Rate6000 => (60000, 1000)
    case Rate5994 => (60000, 1001)
    case Rate5000 => (50000, 1000)
    case Rate4800 => (48000, 1000)
    case Rate4795 => (48000, 1001)
    case Rate3000 => (30000, 1000)
    case Rate2997 => (30000, 1001)
    case Rate2500 => (25000, 1000)
    case Rate2400 => (24000, 1000)
    case Rate2398 => (24000, 1001)
    case Rate1500 => (15000, 1000)
    case Rate1498 => (15000, 1001)
    case RateUnknown => (1, 1)
  }

  /** The five counts of a supported cadence. */
  function Cadence(audio: AudioRate, rate: FrameRate): (r: seq<nat>)
    ensures |r| == 5 && forall c :: 0 <= c < 5 ==> r[c] == CadenceSamples(audio, rate, c)
  {
    [CadenceSamples(audio, rate, 0), CadenceSamples(audio, rate, 1), CadenceSamples(audio, rate, 2),
     CadenceSamples(audio, rate, 3), CadenceSamples(audio, rate, 4)]
  }

  /** The sum of a cadence repeated over `n` frames. */
  function CadenceSum(cadence: seq<nat>, n: nat): nat
    requires |cadence| == 5
  {
    if n == 0 then 0 else CadenceSum(cadence, n - 1) + cadence[(n - 1) % 5]
  }

  /** Ahead of (or behind) the exact count after `n` frames, when frames come at `q` over `p`
      a second and samples at `hertz`; in samples, scaled by `q`. */
  function CadenceDrift(cadence: seq<nat>, q: nat, perFrame: nat, n: nat): int
    requires |cadence| == 5
  {
    CadenceSum(cadence, n) * q - n * perFrame
  }

  /** At most 4/5 of a sample behind and 8/5 ahead. */
  predicate Steady(q: nat, drift: int) {
    -4 * q <= 5 * drift <= 8 * q
  }

  /** A pair is supported exactly when the table gives a count. */
  lemma SupportedIffCounted(audio: AudioRate, rate: FrameRate, c: nat)
    requires c < 5
    ensures Supported(audio, rate) <==> CadenceSamples(audio, rate, c) > 0
    ensures CadenceSamples(audio, rate, c) <= 12813
  {
  }

  /** The rates at which a frame may come as two fields or over two links. */
  predicate Fielded(rate: FrameRate) {
    rate == Rate3000 || rate == Rate2997 || rate == Rate2500 || rate == Rate2400 || rate == Rate2398
  }

  /** Frames, or with `double` fields, per second: this over that. */
  function FieldsOver(rate: FrameRate, double: bool): (nat, nat) {
    if double && Fielded(rate) then (2 * FramesOver(rate).0, FramesOver(rate).1) else FramesOver(rate)
  }

  /** Fields of 30, 29.97, 25, 24 and 23.98 frames come at exactly twice the rate; every other
      rate is left alone. */
  lemma FieldsComeTwiceAsFast(rate: FrameRate)
    ensures Fielded(rate) ==> FramesOver(Doubled(rate)) == (2 * FramesOver(rate).0, FramesOver(rate).1)
    ensures !Fielded(rate) ==> Doubled(rate) == rate
    ensures Fielded(rate) <==> 24000 <= FramesOver(rate).0 <= 30000
    ensures forall double :: FramesOver(Effective(rate, double)) == FieldsOver(rate, double)
  {
  }

  /** Doubling never leaves the table except for 96 kHz at 24 and 23.98 frames. */
  lemma DoubledSupportedIff(audio: AudioRate, rate: FrameRate)
    requires Supported(audio, rate)
    ensures Supported(audio, Doubled(rate)) <==> !(audio == Audio96K && (rate == Rate2400 || rate == Rate2398))
  {
  }

  lemma SumWithinCadence(s: seq<nat>)
    requires |s| == 5
    ensures CadenceSum(s, 0) == 0
    ensures CadenceSum(s, 1) == s[0]
    ensures CadenceSum(s, 2) == s[0] + s[1]
    ensures CadenceSum(s, 3) == s[0] + s[1] + s[2]
    ensures CadenceSum(s, 4) == s[0] + s[1] + s[2] + s[3]
    ensures CadenceSum(s, 5) == s[0] + s[1] + s[2] + s[3] + s[4]
  {
    assert CadenceSum(s, 1) == CadenceSum(s, 0) + s[0];
    assert CadenceSum(s, 2) == CadenceSum(s, 1) + s[1];
    assert CadenceSum(s, 3) == CadenceSum(s, 2) + s[2];
    assert CadenceSum(s, 4) == CadenceSum(s, 3) + s[3];
  }

  lemma {:induction false} CadenceRepeats(cadence: seq<nat>, n: nat)
    requires |cadence| == 5
    ensures CadenceSum(cadence, n + 5) == CadenceSum(cadence, n) + CadenceSum(cadence, 5)
    decreases n
  {
    if n > 0 {
      CadenceRepeats(cadence, n - 1);
      assert (n + 5 - 1) % 5 == (n - 1) % 5;
    }
  }

  lemma FiveMoreFrames(h: int, five: int, q: int, x: int, n: int)
    requires five * q == 5 * x
    ensures (h + five) * q - (n + 5) * x == h * q - n * x
  {
  }

  /** A cadence that is exact over five frames and steady within them is steady for ever. */
  lemma {:induction false} SteadyForever(cadence: seq<nat>, q: nat, perFrame: nat, n: nat)
    requires |cadence| == 5 && CadenceSum(cadence, 5) * q == 5 * perFrame
    requires forall k :: 0 <= k < 5 ==> Steady(q, CadenceDrift(cadence, q, perFrame, k))
    ensures Steady(q, CadenceDrift(cadence, q, perFrame, n))
    decreases n
  {
    if n >= 5 {
      SteadyForever(cadence, q, perFrame, n - 5);
      CadenceRepeats(cadence, n - 5);
      FiveMoreFrames(CadenceSum(cadence, n - 5), CadenceSum(cadence, 5), q, perFrame, n - 5);
    }
  }

  /** Exact samples in a frame, scaled by `FramesOver(rate).0`. */
  function PerFrame(audio: AudioRate, rate: FrameRate): nat {
    Hertz(audio) * FramesOver(rate).1
  }

  /** Five frames of samples are exactly five frames of time. */
  lemma FiveFramesExact(audio: AudioRate, rate: FrameRate)
    requires Supported(audio, rate)
    ensures CadenceSum(Cadence(audio, rate), 5) * FramesOver(rate).0 == 5 * PerFrame(audio, rate)
  {
    SumWithinCadence(Cadence(audio, rate));
  }

  /** The first four partial sums of a cadence against the exact count. */
  predicate SteadyPrefix(s: seq<nat>, q: nat, x: nat)
    requires |s| == 5
  {
    && Steady(q, s[0] * q - x)
    && Steady(q, (s[0] + s[1]) * q - 2 * x)
    && Steady(q, (s[0] + s[1] + s[2]) * q - 3 * x)
    && Steady(q, (s[0] + s[1] + s[2] + s[3]) * q - 4 * x)
  }

  lemma PrefixesAreSteady48(rate: FrameRate)
    requires Supported(Audio48K, rate)
    ensures SteadyPrefix(Cadence(Audio48K, rate), FramesOver(rate).0, PerFrame(Audio48K, rate))
  {
  }

  lemma PrefixesAreSteady96(rate: FrameRate)
    requires Supported(Audio96K, rate)
    ensures SteadyPrefix(Cadence(Audio96K, rate), FramesOver(rate).0, PerFrame(Audio96K, rate))
  {
  }

  lemma PrefixesAreSteady192(rate: FrameRate)
    requires Supported(Audio192K, rate)
    ensures SteadyPrefix(Cadence(Audio192K, rate), FramesOver(rate).0, PerFrame(Audio192K, rate))
  {
  }

  lemma PrefixesAreSteady(audio: AudioRate, rate: FrameRate)
    requires Supported(audio, rate)
    ensures SteadyPrefix(Cadence(audio, rate), FramesOver(rate).0, PerFrame(audio, rate))
  {
    match audio
    case Audio48K => PrefixesAreSteady48(rate);
    case Audio96K => PrefixesAreSteady96(rate);
    case Audio192K => PrefixesAreSteady192(rate);
  }

  lemma PrefixCadenceDrift(s: seq<nat>, q: nat, x: nat, n: nat)
    requires |s| == 5 && SteadyPrefix(s, q, x) && n < 5
    ensures Steady(q, CadenceDrift(s, q, x, n))
  {
    SumWithinCadence(s);
    if n == 0 {
    } else if n == 1 {
    } else if n == 2 {
    } else if n == 3 {
    } else {
    }
  }

  lemma SteadyWithinCadence(audio: AudioRate, rate: FrameRate, n: nat)
    requires Supported(audio, rate) && n < 5
    ensures Steady(FramesOver(rate).0, CadenceDrift(Cadence(audio, rate), FramesOver(rate).0, PerFrame(audio, rate), n))
  {
    PrefixesAreSteady(audio, rate);
    PrefixCadenceDrift(Cadence(audio, rate), FramesOver(rate).0, PerFrame(audio, rate), n);
  }

  lemma {:induction false} HandedIsCadenceSum(audio: AudioRate, rate: FrameRate, double: bool, n: nat)
    ensures Handed(audio, rate, double, n) == CadenceSum(Cadence(audio, Effective(rate, double)), n)
    decreases n
  {
    if n > 0 {
      HandedIsCadenceSum(audio, rate, double, n - 1);
    }
  }

  /** Pairs that stay in the table when fields or two links double the rate. */
  predicate Served(audio: AudioRate, rate: FrameRate, double: bool) {
    Supported(audio, rate) && !(double && audio == Audio96K && (rate == Rate2400 || rate == Rate2398))
  }

  /** How far the samples handed out over `n` frames, or fields, are ahead of exact; in
      samples, scaled by the rate at which they come. */
  function Drift(audio: AudioRate, rate: FrameRate, double: bool, n: nat): int {
    Handed(audio, rate, double, n) * FieldsOver(rate, double).0 - n * (Hertz(audio) * FieldsOver(rate, double).1)
  }

  /** Over any number of frames, or fields, the samples handed out are never more than 4/5 of
      a sample behind nor 8/5 ahead of exact: audio does not drift. */
  lemma NoDrift(audio: AudioRate, rate: FrameRate, double: bool, n: nat)
    requires Served(audio, rate, double)
    ensures Steady(FieldsOver(rate, double).0, Drift(audio, rate, double, n))
  {
    DoubledSupportedIff(audio, rate);
    FieldsComeTwiceAsFast(rate);
    var r := Effective(rate, double);
    FiveFramesExact(audio, r);
    forall k | 0 <= k < 5 ensures Steady(FramesOver(r).0, CadenceDrift(Cadence(audio, r), FramesOver(r).0,
        PerFrame(audio, r), k)) {
      SteadyWithinCadence(audio, r, k);
    }
    SteadyForever(Cadence(audio, r), FramesOver(r).0, PerFrame(audio, r), n);
    HandedIsCadenceSum(audio, rate, double, n);
  }

  // ----- the exact counts -----

  datatype Rounding = Down | Nearest | Up

  /** A count that differs from the exact one by `drift`, scaled by `q`, is the exact one
      rounded, or with `ahead` one more than that. */
  predicate IsRounded(m: Rounding, ahead: bool, q: int, drift: int) {
    var d := if ahead then drift - q else drift;
    match m
    case Down => -q < d <= 0
    case Nearest => -q < 2 * d <= q
    case Up => 0 <= d < q
  }

  /** How the counts of the NTSC rates are rounded; the others need no rounding. */
  function RoundingOf(audio: AudioRate, rate: FrameRate): Rounding {
    if IsDown(audio, rate) then Down else if IsNearest(audio, rate) then Nearest else Up
  }

  predicate IsDown(audio: AudioRate, rate: FrameRate) {
    audio == Audio48K && rate == Rate5994
  }

  predicate IsNearest(audio: AudioRate, rate: FrameRate) {
    || (audio == Audio48K && (rate == Rate11988 || rate == Rate2997))
    || (audio == Audio96K && rate == Rate5994)
    || (audio == Audio192K && rate == Rate11988)
  }

  predicate IsUp(audio: AudioRate, rate: FrameRate) {
    || rate == Rate1498
    || (audio != Audio48K && rate == Rate2997)
    || (audio == Audio192K && rate == Rate5994)
  }

  /** The two cadences that are not an exact count rounded: after one or two frames of five
      they are a sample further ahead. */
  predicate IsAhead(audio: AudioRate, rate: FrameRate, c: nat) {
    || (audio == Audio96K && rate == Rate1498 && (c == 1 || c == 2))
    || (audio == Audio192K && rate == Rate2997 && c == 2)
  }

  predicate RoundedPrefix(audio: AudioRate, rate: FrameRate, s: seq<nat>, q: nat, x: nat)
    requires |s| == 5
  {
    var m := RoundingOf(audio, rate);
    && IsRounded(m, IsAhead(audio, rate, 1), q, s[0] * q - x)
    && IsRounded(m, IsAhead(audio, rate, 2), q, (s[0] + s[1]) * q - 2 * x)
    && IsRounded(m, IsAhead(audio, rate, 3), q, (s[0] + s[1] + s[2]) * q - 3 * x)
    && IsRounded(m, IsAhead(audio, rate, 4), q, (s[0] + s[1] + s[2] + s[3]) * q - 4 * x)
  }

  lemma DownPrefixes(audio: AudioRate, rate: FrameRate)
    requires IsDown(audio, rate)
    ensures RoundedPrefix(audio, rate, Cadence(audio, rate), FramesOver(rate).0, PerFrame(audio, rate))
  {
  }

  lemma NearestPrefixes(audio: AudioRate, rate: FrameRate)
    requires IsNearest(audio, rate)
    ensures RoundedPrefix(audio, rate, Cadence(audio, rate), FramesOver(rate).0, PerFrame(audio, rate))
  {
  }

  lemma UpPrefixesSlow(audio: AudioRate)
    ensures RoundedPrefix(audio, Rate1498, Cadence(audio, Rate1498), FramesOver(Rate1498).0, PerFrame(audio, Rate1498))
  {
  }

  lemma UpPrefixes(audio: AudioRate, rate: FrameRate)
    requires IsUp(audio, rate) && rate != Rate1498
    ensures RoundedPrefix(audio, rate, Cadence(audio, rate), FramesOver(rate).0, PerFrame(audio, rate))
  {
  }

  lemma EvenCounts(audio: AudioRate, rate: FrameRate, c: nat)
    requires Supported(audio, rate) && !IsDown(audio, rate) && !IsNearest(audio, rate) && !IsUp(audio, rate) && c < 5
    ensures CadenceSamples(audio, rate, c) * FramesOver(rate).0 == PerFrame(audio, rate)
  {
  }

  lemma EvenPrefixes(audio: AudioRate, rate: FrameRate)
    requires Supported(audio, rate) && !IsDown(audio, rate) && !IsNearest(audio, rate) && !IsUp(audio, rate)
    ensures RoundedPrefix(audio, rate, Cadence(audio, rate), FramesOver(rate).0, PerFrame(audio, rate))
  {
    EvenCounts(audio, rate, 0);
    EvenCounts(audio, rate, 1);
    EvenCounts(audio, rate, 2);
    EvenCounts(audio, rate, 3);
    ExactIsRounded(audio, rate, Cadence(audio, rate), FramesOver(rate).0, PerFrame(audio, rate));
  }

  lemma ExactIsRounded(audio: AudioRate, rate: FrameRate, s: seq<nat>, q: nat, x: nat)
    requires !IsDown(audio, rate) && !IsNearest(audio, rate) && !IsUp(audio, rate)
    requires |s| == 5 && q > 0 && s[0] * q == s[1] * q == s[2] * q == s[3] * q == x
    ensures RoundedPrefix(audio, rate, s, q, x)
  {
    Distribute(s[0], s[1], q);
    Distribute(s[0] + s[1], s[2], q);
    Distribute(s[0] + s[1] + s[2], s[3], q);
  }

  lemma PrefixesAreRounded(audio: AudioRate, rate: FrameRate)
    requires Supported(audio, rate)
    ensures RoundedPrefix(audio, rate, Cadence(audio, rate), FramesOver(rate).0, PerFrame(audio, rate))
  {
    if IsDown(audio, rate) {
      DownPrefixes(audio, rate);
    } else if IsNearest(audio, rate) {
      NearestPrefixes(audio, rate);
    } else if rate == Rate1498 {
      UpPrefixesSlow(audio);
    } else if IsUp(audio, rate) {
      UpPrefixes(audio, rate);
    } else {
      EvenPrefixes(audio, rate);
    }
  }

  lemma RoundedWithinCadence(audio: AudioRate, rate: FrameRate, s: seq<nat>, q: nat, x: nat, n: nat)
    requires |s| == 5 && RoundedPrefix(audio, rate, s, q, x) && n < 5 && q > 0
    ensures IsRounded(RoundingOf(audio, rate), IsAhead(audio, rate, n), q, CadenceDrift(s, q, x, n))
  {
    SumWithinCadence(s);
    if n == 0 {
    } else if n == 1 {
    } else if n == 2 {
    } else if n == 3 {
    } else {
    }
  }

  lemma DriftRepeats(s: seq<nat>, q: nat, x: nat, n: nat)
    requires |s| == 5 && CadenceSum(s, 5) * q == 5 * x
    ensures CadenceDrift(s, q, x, n + 5) == CadenceDrift(s, q, x, n)
  {
    CadenceRepeats(s, n);
    FiveMoreFrames(CadenceSum(s, n), CadenceSum(s, 5), q, x, n);
  }

  lemma {:induction false} DriftWithinCadence(s: seq<nat>, q: nat, x: nat, n: nat)
    requires |s| == 5 && CadenceSum(s, 5) * q == 5 * x
    ensures CadenceDrift(s, q, x, n) == CadenceDrift(s, q, x, n % 5)
    decreases n
  {
    if n >= 5 {
      assert (n - 5) % 5 == n % 5;
      DriftWithinCadence(s, q, x, n - 5);
      DriftRepeats(s, q, x, n - 5);
    }
  }

  lemma CadenceIsRounded(audio: AudioRate, rate: FrameRate, n: nat)
    requires Supported(audio, rate)
    ensures IsRounded(RoundingOf(audio, rate), IsAhead(audio, rate, n % 5), FramesOver(rate).0,
                      CadenceDrift(Cadence(audio, rate), FramesOver(rate).0, PerFrame(audio, rate), n))
  {
    PrefixesAreRounded(audio, rate);
    FiveFramesExact(audio, rate);
    RoundedWithinCadence(audio, rate, Cadence(audio, rate), FramesOver(rate).0, PerFrame(audio, rate), n % 5);
    DriftWithinCadence(Cadence(audio, rate), FramesOver(rate).0, PerFrame(audio, rate), n);
  }

  /** After any number of frames, or fields, the samples handed out are the exact count,
      rounded as the pair of rates has it, but for two pairs that are now and then one ahead. */
  lemma HandedIsRounded(audio: AudioRate, rate: FrameRate, double: bool, n: nat)
    requires Served(audio, rate, double)
    ensures var r := Effective(rate, double);
      IsRounded(RoundingOf(audio, r), IsAhead(audio, r, n % 5), FieldsOver(rate, double).0,
                Drift(audio, rate, double, n))
  {
    DoubledSupportedIff(audio, rate);
    FieldsComeTwiceAsFast(rate);
    CadenceIsRounded(audio, Effective(rate, double), n);
    HandedIsCadenceSum(audio, rate, double, n);
  }

  // ----- a capture -----

  /** A capture stamps its first frame before it counts any, so the first two frames both
      take cadence 0: the samples stamped by the start and `n` running interrupts. */
  function Stamped(audio: AudioRate, rate: FrameRate, double: bool, n: nat): nat {
    SamplesPerFrame(audio, rate, double, 0) + Handed(audio, rate, double, n)
  }

  function CaptureDrift(audio: AudioRate, rate: FrameRate, double: bool, n: nat): int {
    Stamped(audio, rate, double, n) * FieldsOver(rate, double).0
      - (n + 1) * (Hertz(audio) * FieldsOver(rate, double).1)
  }

  lemma FirstFrameApart(c: int, h: int, q: int, x: int, n: int)
    ensures (c + h) * q - (n + 1) * x == (h * q - n * x) + (c * q - 1 * x)
  {
  }

  lemma CaptureDriftIsTwo(audio: AudioRate, rate: FrameRate, double: bool, n: nat)
    ensures CaptureDrift(audio, rate, double, n) == Drift(audio, rate, double, n) + Drift(audio, rate, double, 1)
  {
    var over, first := FieldsOver(rate, double), SamplesPerFrame(audio, rate, double, 0);
    assert Handed(audio, rate, double, 1) == Handed(audio, rate, double, 0) + first == first;
    FirstFrameApart(first, Handed(audio, rate, double, n), over.0, Hertz(audio) * over.1, n);
  }

  lemma TwiceSteady(q: nat, x: int, y: int)
    requires Steady(q, x) && Steady(q, y)
    ensures -8 * q <= 5 * (x + y) <= 16 * q
  {
  }

  /** So a capture is never more than 8/5 of a sample behind nor 16/5 ahead. */
  lemma NoCaptureDrift(audio: AudioRate, rate: FrameRate, double: bool, n: nat)
    requires Served(audio, rate, double)
    ensures var q := FieldsOver(rate, double).0;
      -8 * q <= 5 * CaptureDrift(audio, rate, double, n) <= 16 * q
  {
    NoDrift(audio, rate, double, n);
    NoDrift(audio, rate, double, 1);
    CaptureDriftIsTwo(audio, rate, double, n);
    TwiceSteady(FieldsOver(rate, double).0, Drift(audio, rate, double, n), Drift(audio, rate, double, 1));
  }
}
