/** The manual reference sampler: steady windows of samples at one or two known poses, and
    the affine map they give. */
module ManualSessions {
  import opened RealFacts

  datatype OptionsRecord = OptionsRecord(
    referenceCount: nat, knownSign: int, model: seq<real>, minimumSamples: nat, stabilityDwellNs: nat,
    maximumSampleAgeNs: nat, maximumVelocity: real, maximumSpread: real, minimumSeparation: real,
    maximumScaleError: real, expectedRevision: nat)

  /** What the session's creator has checked. */
  type Options = o: OptionsRecord
    | (o.referenceCount == 1 || o.referenceCount == 2) && |o.model| == 2 && -1 <= o.knownSign <= 1
      && (o.referenceCount == 1 ==> o.knownSign != 0) && o.minimumSeparation > 0.0 && o.maximumSpread >= 0.0
    witness OptionsRecord(1, 1, [0.0, 0.0], 0, 0, 0, 0.0, 0.0, 1.0, 0.0, 0)

  datatype Sample = Sample(feedbackSeq: nat, tNs: nat, q: real, dq: real, enabled: bool, fault: bool)

  datatype Phase = Collect1 | Collect2 | Candidate | Review | Committed | Aborted

  datatype Status = OK | EState | EStale | EInterlock | EUnstable | ELimit | EInval

  // ---------------------------------------------------------------------------
  // Accumulated windows.

  datatype Accumulator = Accumulator(count: nat, firstNs: nat, sum: real, minimum: real, maximum: real)

  const EMPTY: Accumulator := Accumulator(0, 0, 0.0, 0.0, 0.0)

  function Restart(s: Sample): Accumulator {
    Accumulator(1, s.tNs, s.q, s.q, s.q)
  }

  function Add(a: Accumulator, s: Sample): Accumulator {
    if a.count == 0 then Restart(s)
    else Accumulator(a.count + 1, a.firstNs, a.sum + s.q, Min(a.minimum, s.q), Max(a.maximum, s.q))
  }

  function Mean(a: Accumulator): real {
    if a.count == 0 then 0.0 else a.sum / a.count as real
  }

  function Spread(a: Accumulator): real {
    if a.count == 0 then 0.0 else a.maximum - a.minimum
  }

  function SumQ(w: seq<Sample>): real {
    if w == [] then 0.0 else SumQ(w[..|w| - 1]) + w[|w| - 1].q
  }

  /** The accumulator describes exactly this window of samples. */
  ghost predicate Describes(a: Accumulator, w: seq<Sample>) {
    && a.count == |w| && a.sum == SumQ(w)
    && (w != [] ==> a.firstNs == w[0].tNs)
    && (forall i :: 0 <= i < |w| ==> a.minimum <= w[i].q <= a.maximum)
    && (w != [] ==> exists i :: 0 <= i < |w| && w[i].q == a.minimum)
    && (w != [] ==> exists i :: 0 <= i < |w| && w[i].q == a.maximum)
  }

  lemma RestartDescribes(s: Sample)
    ensures Describes(Restart(s), [s])
  {
    assert [s][..0] == [];
    assert [s][0].q == s.q;
  }

  lemma AddDescribes(a: Accumulator, w: seq<Sample>, s: Sample)
    requires Describes(a, w) && w != []
    ensures Describes(Add(a, s), w + [s])
  {
    var v := w + [s];
    assert v[..|w|] == w && v[|w|] == s;
    var low :| 0 <= low < |w| && w[low].q == a.minimum;
    var high :| 0 <= high < |w| && w[high].q == a.maximum;
    assert v[low] == w[low] && v[high] == w[high];
    assert forall i :: 0 <= i < |w| ==> v[i] == w[i];
  }

  lemma {:induction false} SumBounds(w: seq<Sample>, low: real, high: real)
    requires forall i :: 0 <= i < |w| ==> low <= w[i].q <= high
    ensures Times(low, |w| as real) <= SumQ(w) <= Times(high, |w| as real)
    decreases |w|
  {
    if w != [] {
      SumBounds(w[..|w| - 1], low, high);
      OneMore(low, |w| - 1);
      OneMore(high, |w| - 1);
      hide Times;
    }
  }

  lemma OneMore(x: real, n: nat)
    ensures Times(x, (n + 1) as real) == Times(x, n as real) + x
  {
  }

  lemma QuotientBetween(low: real, sum: real, high: real, n: real)
    requires n > 0.0 && Times(low, n) <= sum <= Times(high, n)
    ensures low <= sum / n <= high
  {
    var mean := sum / n;
    assert Times(mean, n) == sum;
    if mean < low {
      var gap := MulStrict(n, mean, low);
    }
    if mean > high {
      var gap := MulStrict(n, high, mean);
    }
  }

  /** The mean lies among the samples. */
  lemma MeanBetween(a: Accumulator, w: seq<Sample>)
    requires Describes(a, w) && w != []
    ensures a.minimum <= Mean(a) <= a.maximum
  {
    SumBounds(w, a.minimum, a.maximum);
    QuotientBetween(a.minimum, a.sum, a.maximum, |w| as real);
  }

  // ---------------------------------------------------------------------------
  // The candidate map.

  /** How far the map misses at one reference. */
  function Residual(a: real, b: real, mean: real, model: real): real {
    Times(a, mean) + b - model
  }

  /** A unit slope is off by the scale error times the distance between the references. */
  lemma ScaleError(output: real, model: real, sign: real, error: real)
    requires output != 0.0 && (sign == 1.0 || sign == -1.0)
    requires model / output >= 0.0 <==> sign == 1.0
    requires Abs(Abs(model / output) - 1.0) <= error
    ensures Abs(Times(sign, output) - model) <= Times(error, Abs(output))
  {
    var scale := model / output;
    assert model == scale * output;
    assert Times(sign, output) - model == (sign - scale) * output;
    assert Abs(sign - scale) == Abs(Abs(scale) - 1.0);
    AbsProduct(sign - scale, output);
    var gap := MulMonotone(Abs(output), Abs(sign - scale), error);
  }

  /** The shared offset splits the miss evenly, so each reference carries half of it. */
  lemma TwoPointResidual(m0: real, m1: real, r0: real, r1: real, sign: real, b: real, error: real)
    requires m1 - m0 != 0.0 && (sign == 1.0 || sign == -1.0)
    requires (r1 - r0) / (m1 - m0) >= 0.0 <==> sign == 1.0
    requires Abs(Abs((r1 - r0) / (m1 - m0)) - 1.0) <= error
    requires b == 0.5 * ((r0 - Times(sign, m0)) + (r1 - Times(sign, m1)))
    ensures Residual(sign, b, m0, r0) == -Residual(sign, b, m1, r1)
    ensures Abs(Residual(sign, b, m0, r0)) <= 0.5 * Times(error, Abs(m1 - m0))
    ensures Abs(Residual(sign, b, m1, r1)) <= 0.5 * Times(error, Abs(m1 - m0))
  {
    ScaleError(m1 - m0, r1 - r0, sign, error);
    assert Times(sign, m1 - m0) == Times(sign, m1) - Times(sign, m0);
    hide Times;
  }

  /** A sample within the spread of its mean is mapped within the spread more. */
  lemma SampleResidual(a: real, b: real, q: real, mean: real, model: real, spread: real, bound: real)
    requires (a == 1.0 || a == -1.0) && Abs(q - mean) <= spread && Abs(Residual(a, b, mean, model)) <= bound
    ensures Abs(Residual(a, b, q, model)) <= bound + spread
  {
    if a == 1.0 {
      assert Times(a, q) == q && Times(a, mean) == mean;
    } else {
      assert Times(a, q) == -q && Times(a, mean) == -mean;
    }
  }

  /** A window long enough, slow enough and tight enough to count. */
  ghost predicate Steady(o: Options, w: seq<Sample>) {
    forall i :: 0 <= i < |w| ==> Abs(w[i].dq) <= o.maximumVelocity && !w[i].enabled && !w[i].fault
  }

  /** Each sample is newer than the ones before, and none is newer than this. */
  ghost predicate Ordered(w: seq<Sample>, tNs: nat, feedbackSeq: nat) {
    && (forall i :: 0 <= i < |w| ==> w[i].tNs <= tNs && w[i].feedbackSeq <= feedbackSeq)
    && (forall i, j :: 0 <= i < j < |w| ==> w[i].tNs < w[j].tNs && w[i].feedbackSeq < w[j].feedbackSeq)
  }

  lemma OrderedAppend(w: seq<Sample>, tNs: nat, feedbackSeq: nat, s: Sample)
    requires Ordered(w, tNs, feedbackSeq) && s.tNs > tNs && s.feedbackSeq > feedbackSeq
    ensures Ordered(w, s.tNs, s.feedbackSeq) && Ordered(w + [s], s.tNs, s.feedbackSeq)
  {
  }

  /** Too far from some sample of its window. */
  ghost predicate Scattered(o: Options, w: seq<Sample>, s: Sample) {
    exists i :: 0 <= i < |w| && Abs(w[i].q - s.q) > o.maximumSpread
  }

  lemma SpreadMeansScattered(o: Options, a: Accumulator, w: seq<Sample>, s: Sample)
    requires Kept(o, a, w) && a.count > 0
    ensures Spread(Add(a, s)) > o.maximumSpread <==> Scattered(o, w, s)
  {
    var low :| 0 <= low < |w| && w[low].q == a.minimum;
    var high :| 0 <= high < |w| && w[high].q == a.maximum;
    assert Abs(w[low].q - s.q) > o.maximumSpread ==> Scattered(o, w, s);
    assert Abs(w[high].q - s.q) > o.maximumSpread ==> Scattered(o, w, s);
  }

  /** Sum over the samples divided by their number. */
  ghost function Average(w: seq<Sample>): real
    requires w != []
  {
    SumQ(w) / |w| as real
  }

  lemma MeanIsAverage(a: Accumulator, w: seq<Sample>)
    requires Describes(a, w) && w != []
    ensures Mean(a) == Average(w)
  {
  }

  /** The two references lie far enough apart, and their distances and order agree with a unit
      slope of the known sign. */
  predicate Agree(o: Options, output: real, model: real) {
    && (output >= o.minimumSeparation || output <= -o.minimumSeparation)
    && (model >= o.minimumSeparation || model <= -o.minimumSeparation)
    && (o.knownSign == 1 ==> model / output >= 0.0) && (o.knownSign == -1 ==> model / output < 0.0)
    && if model / output >= 0.0 then 1.0 - o.maximumScaleError <= model / output <= 1.0 + o.maximumScaleError
       else 1.0 - o.maximumScaleError <= -(model / output) <= 1.0 + o.maximumScaleError
  }

  lemma AgreeIs(o: Options, output: real, model: real)
    ensures Agree(o, output, model) <==>
            && Abs(output) >= o.minimumSeparation && Abs(model) >= o.minimumSeparation
            && Abs(Abs(model / output) - 1.0) <= o.maximumScaleError
            && (o.knownSign != 0 ==> (if model / output >= 0.0 then 1.0 else -1.0) == o.knownSign as real)
  {
  }

  ghost predicate Finished(o: Options, w: seq<Sample>) {
    w != [] && |w| >= o.minimumSamples && w[|w| - 1].tNs >= w[0].tNs + o.stabilityDwellNs
  }

  lemma FinishedIsNotEmpty(o: Options, w: seq<Sample>)
    requires Finished(o, w)
    ensures w != []
  {
  }

  /** A window the session may keep: described, steady and tight. */
  ghost predicate Kept(o: Options, a: Accumulator, w: seq<Sample>) {
    Describes(a, w) && Steady(o, w) && Spread(a) <= o.maximumSpread
  }

  lemma EmptyIsKept(o: Options)
    ensures Kept(o, EMPTY, [])
  {
  }

  lemma RestartIsKept(o: Options, s: Sample)
    requires Abs(s.dq) <= o.maximumVelocity && !s.enabled && !s.fault
    ensures Kept(o, Restart(s), [s])
  {
    RestartDescribes(s);
  }

  lemma GrownIsKept(o: Options, a: Accumulator, w: seq<Sample>, s: Sample)
    requires Kept(o, a, w) && Abs(s.dq) <= o.maximumVelocity && !s.enabled && !s.fault && a.count > 0
    requires Spread(Add(a, s)) <= o.maximumSpread
    ensures Kept(o, Add(a, s), w + [s])
  {
    AddDescribes(a, w, s);
    hide Describes, Add, Spread;
  }

  lemma KeptCount(o: Options, a: Accumulator, w: seq<Sample>)
    requires Kept(o, a, w)
    ensures a.count == |w| && (w != [] ==> a.firstNs == w[0].tNs)
  {
  }

  lemma NothingScattered(o: Options, s: Sample)
    ensures !Scattered(o, [], s)
  {
  }

  class ManualSession {
    const options: Options
    var accumulators: seq<Accumulator>
    var means: seq<real>
    var spreads: seq<real>
    var lastFeedbackSeq: nat
    var lastSampleNs: nat
    var phase: Phase
    var candidateA: real
    var candidateB: real
    /** The samples each accumulator stands for. */
    ghost var windows: seq<seq<Sample>>

    ghost predicate Reference(k: nat)
      reads this`accumulators, this`windows, this`lastSampleNs, this`lastFeedbackSeq
    {
      && |accumulators| == 2 && |windows| == 2 && k < 2
      && Kept(options, accumulators[k], windows[k]) && Ordered(windows[k], lastSampleNs, lastFeedbackSeq)
    }

    ghost predicate Done(k: nat)
      reads this`accumulators, this`windows, this`means
    {
      && |accumulators| == 2 && |windows| == 2 && |means| == 2 && k < 2
      && Finished(options, windows[k]) && means[k] == Average(windows[k])
    }

    /** Half the scale error over the distance between the references; nothing for one. */
    ghost function Bound(): real
      requires |means| == 2
      reads this`means
    {
      if options.referenceCount == 1 then 0.0 else 0.5 * Times(options.maximumScaleError, Abs(means[1] - means[0]))
    }

    /** All references finished: a candidate exactly if they agree. */
    ghost predicate Concluded(before: Phase, r: Status)
      reads this`phase, this`means, this`windows, this`accumulators
    {
      && |means| == 2 && (forall k :: 0 <= k < options.referenceCount ==> Done(k))
      && (r == OK <==> options.referenceCount == 1 || Agree(options, means[1] - means[0], options.model[1] - options.model[0]))
      && (r == OK ==> phase == Candidate) && (r != OK ==> r == ELimit && phase == before)
    }

    ghost predicate Mapped()
      reads this`accumulators, this`windows, this`means, this`candidateA, this`candidateB
    {
      && |means| == 2 && (candidateA == 1.0 || candidateA == -1.0)
      && (options.knownSign != 0 ==> candidateA == options.knownSign as real)
      && (options.referenceCount == 2 ==> Agree(options, means[1] - means[0], options.model[1] - options.model[0]))
      && forall k :: 0 <= k < options.referenceCount ==>
           Done(k) && Abs(Residual(candidateA, candidateB, means[k], options.model[k])) <= Bound()
    }

    ghost predicate Valid()
      reads this
    {
      && |accumulators| == 2 && |windows| == 2 && |means| == 2 && |spreads| == 2
      && (phase != Aborted ==> Reference(0) && Reference(1))
      && (phase == Collect2 ==> options.referenceCount == 2 && Done(0))
      && (phase == Candidate || phase == Review || phase == Committed ==> Mapped())
    }

    constructor (options: Options)
      ensures Valid() && phase == Collect1 && this.options == options && windows == [[], []]
    {
      this.options := options;
      accumulators, means, spreads := [EMPTY, EMPTY], [0.0, 0.0], [0.0, 0.0];
      lastFeedbackSeq, lastSampleNs, phase, candidateA, candidateB := 0, 0, Collect1, 0.0, 0.0;
      windows := [[], []];
    }

    predicate StaleSample(nowNs: nat, s: Sample)
      reads this
    {
      || s.feedbackSeq == 0 || s.feedbackSeq <= lastFeedbackSeq || s.tNs <= lastSampleNs
      || s.tNs > nowNs || nowNs - s.tNs > options.maximumSampleAgeNs
    }

    method LatchAbort(status: Status) returns (r: Status)
      requires Valid()
      modifies this
      ensures Valid() && phase == Aborted && r == status
    {
      phase := Aborted;
      accumulators, means, spreads := [EMPTY, EMPTY], [0.0, 0.0], [0.0, 0.0];
      candidateA, candidateB := 0.0, 0.0;
      return status;
    }

    /** Adds one sample to the window of the reference being collected.  A moving or
        scattered sample restarts it; a long enough window finishes the reference. */
    method Sample(reference: nat, nowNs: nat, s: Sample) returns (r: Status)
      requires Valid()
      modifies this
      ensures Valid()
      ensures var expected := if old(phase) == Collect1 then 0 else 1;
              var collecting := old(phase) == Collect1 || old(phase) == Collect2;
              && (!collecting || reference != expected ==>
                    r == EState && phase == old(phase) && windows == old(windows))
              && (collecting && reference == expected ==>
                    if !(s.feedbackSeq > old(lastFeedbackSeq) && s.tNs > old(lastSampleNs)
                         && s.tNs <= nowNs <= s.tNs + options.maximumSampleAgeNs)
                    then r == EStale && phase == Aborted
                    else if s.enabled || s.fault then r == EInterlock && phase == Aborted
                    else
                      && (r == OK || r == ELimit || r == EUnstable)
                      && var w := old(windows)[reference];
                      && (r == EUnstable <==> Abs(s.dq) > options.maximumVelocity || Scattered(options, w, s))
                      && windows == old(windows)[reference := if r != EUnstable then w + [s]
                                                              else if Abs(s.dq) > options.maximumVelocity then []
                                                              else [s]]
                      && Ordered(windows[reference], s.tNs, s.feedbackSeq)
                      && (r == EUnstable || !Finished(options, windows[reference]) ==> phase == old(phase) && r != ELimit)
                      && (r != EUnstable && Finished(options, windows[reference]) ==>
                            if reference == 0 && options.referenceCount == 2 then r == OK && phase == Collect2
                            else Concluded(old(phase), r)))
    {
      hide Kept, Mean, Mapped, Ordered, Scattered;
      var expected := if phase == Collect1 then 0 else 1;
      if (phase != Collect1 && phase != Collect2) || reference != expected {
        return EState;
      }
      if StaleSample(nowNs, s) {
        r := LatchAbort(EStale);
        return;
      }
      if s.enabled || s.fault {
        r := LatchAbort(EInterlock);
        return;
      }
      OrderedBefore(s);
      lastFeedbackSeq, lastSampleNs := s.feedbackSeq, s.tNs;
      r := Accumulate(reference, s);
      assert Reference(0) && Reference(1);
      if r != OK {
        return;
      }
      KeptCount(options, accumulators[reference], windows[reference]);
      var a := accumulators[reference];
      if a.count >= options.minimumSamples && s.tNs >= a.firstNs + options.stabilityDwellNs {
        r := FinishReference(reference);
      }
    }

    /** What waits in the windows is older than a sample that is not stale. */
    lemma OrderedBefore(s: Sample)
      requires Valid() && phase != Aborted && s.tNs > lastSampleNs && s.feedbackSeq > lastFeedbackSeq
      ensures forall k :: 0 <= k < 2 ==> Ordered(windows[k], s.tNs, s.feedbackSeq) && Ordered(windows[k] + [s], s.tNs, s.feedbackSeq)
    {
      hide Kept, Ordered, Mapped, Done;
      assert Reference(0) && Reference(1);
      OrderedAppend(windows[0], lastSampleNs, lastFeedbackSeq, s);
      OrderedAppend(windows[1], lastSampleNs, lastFeedbackSeq, s);
    }

    method Accumulate(reference: nat, s: Sample) returns (r: Status)
      requires Valid() && reference < 2 && phase != Aborted && !s.enabled && !s.fault
      requires phase == Collect1 ==> reference == 0
      requires phase != Collect1 ==> phase == Collect2 && reference == 1
      requires s.tNs == lastSampleNs && s.feedbackSeq == lastFeedbackSeq
      requires Ordered(windows[reference] + [s], lastSampleNs, lastFeedbackSeq)
      modifies this`accumulators, this`windows
      ensures Valid() && (r == OK || r == EUnstable)
      ensures var w := old(windows)[reference];
              && (r == EUnstable <==> Abs(s.dq) > options.maximumVelocity || Scattered(options, w, s))
              && windows == old(windows)[reference := if r == OK then w + [s]
                                                      else if Abs(s.dq) > options.maximumVelocity then [] else [s]]
    {
      hide Kept, Finished, Mean, Spread, Add, Restart, Scattered;
      var a := accumulators[reference];
      ghost var w := windows[reference];
      KeptCount(options, a, w);
      if Abs(s.dq) > options.maximumVelocity {
        EmptyIsKept(options);
        Replace(reference, EMPTY, []);
        return EUnstable;
      }
      RestartIsKept(options, s);
      if a.count == 0 {
        Replace(reference, Restart(s), [s]);
        assert w + [s] == [s];
        NothingScattered(options, s);
        return OK;
      }
      SpreadMeansScattered(options, a, w, s);
      if Spread(Add(a, s)) > options.maximumSpread {
        Replace(reference, Restart(s), [s]);
        return EUnstable;
      }
      GrownIsKept(options, a, w, s);
      Replace(reference, Add(a, s), w + [s]);
      return OK;
    }

    method Replace(reference: nat, a: Accumulator, ghost w: seq<Sample>)
      requires Valid() && reference < 2 && phase != Aborted
      requires phase == Collect1 || (phase == Collect2 && reference == 1)
      requires Kept(options, a, w) && Ordered(w, lastSampleNs, lastFeedbackSeq)
      modifies this`accumulators, this`windows
      ensures Valid() && windows == old(windows)[reference := w]
      ensures accumulators == old(accumulators)[reference := a]
    {
      hide Kept, Spread, Finished, Mean, Ordered;
      accumulators := accumulators[reference := a];
      windows := windows[reference := w];
    }

    method FinishReference(reference: nat) returns (r: Status)
      requires Valid() && reference < 2 && Finished(options, windows[reference])
      requires if reference == 0 then phase == Collect1 else phase == Collect2
      modifies this`means, this`spreads, this`phase, this`candidateA, this`candidateB
      ensures Valid() && (r == OK || r == ELimit) && phase != Aborted
      ensures if reference == 0 && options.referenceCount == 2 then r == OK && phase == Collect2 else Concluded(old(phase), r)
    {
      hide Kept, Spread, Finished, Mean, Agree, Average, Residual;
      FinishedIsNotEmpty(options, windows[reference]);
      AverageOf(reference);
      means := means[reference := Mean(accumulators[reference])];
      spreads := spreads[reference := Spread(accumulators[reference])];
      if reference == 0 && options.referenceCount == 2 {
        phase := Collect2;
        return OK;
      }
      r := CalculateCandidate();
    }

    lemma AverageOf(reference: nat)
      requires Valid() && reference < 2 && phase != Aborted && windows[reference] != []
      ensures Mean(accumulators[reference]) == Average(windows[reference])
    {
      assert Reference(reference);
      MeanIsAverage(accumulators[reference], windows[reference]);
    }

    method CalculateCandidate() returns (r: Status)
      requires Valid() && (phase == Collect1 || phase == Collect2)
      requires forall k :: 0 <= k < options.referenceCount ==> Done(k)
      requires phase == Collect1 ==> options.referenceCount == 1
      modifies this`phase, this`candidateA, this`candidateB
      ensures Valid() && (r == OK || r == ELimit) && phase != Aborted
      ensures Concluded(old(phase), r)
    {
      hide Kept, Spread, Finished, Mean, Average, Agree;
      if options.referenceCount == 1 {
        candidateA := options.knownSign as real;
        candidateB := options.model[0] - Times(candidateA, means[0]);
        phase := Candidate;
        return OK;
      }
      var output, model := means[1] - means[0], options.model[1] - options.model[0];
      AgreeIs(options, output, model);
      if Abs(output) < options.minimumSeparation || Abs(model) < options.minimumSeparation {
        return ELimit;
      }
      var scale := model / output;
      var sign := if scale >= 0.0 then 1.0 else -1.0;
      if Abs(Abs(scale) - 1.0) > options.maximumScaleError
         || (options.knownSign != 0 && sign != options.knownSign as real) {
        return ELimit;
      }
      candidateA := sign;
      var first := options.model[0] - Times(sign, means[0]);
      var second := options.model[1] - Times(sign, means[1]);
      candidateB := 0.5 * (first + second);
      TwoPointResidual(means[0], means[1], options.model[0], options.model[1], sign, candidateB, options.maximumScaleError);
      phase := Candidate;
      assert Done(0) && Done(1);
      hide Times, Residual;
      return OK;
    }

    method BeginReview() returns (r: Status)
      requires Valid()
      modifies this`phase
      ensures Valid() && (r == OK <==> old(phase) == Candidate)
      ensures phase == if r == OK then Review else old(phase)
    {
      if phase != Candidate {
        return EState;
      }
      phase := Review;
      return OK;
    }

    /** Hands out the map.  Every sample of every collected window is then mapped to within
        the spread plus half the scale error over the reference distance of its model pose. */
    method Commit(revision: nat, evidencePresent: bool) returns (r: Status, a: real, b: real)
      requires Valid()
      modifies this`phase
      ensures Valid()
      ensures r == OK <==> old(phase) == Review && revision > options.expectedRevision && evidencePresent
      ensures phase == if r == OK then Committed else old(phase)
      ensures r == OK ==> a == candidateA && b == candidateB && (a == 1.0 || a == -1.0)
      ensures r == OK ==> forall k :: 0 <= k < options.referenceCount ==>
                Finished(options, windows[k]) && Steady(options, windows[k])
                && Ordered(windows[k], lastSampleNs, lastFeedbackSeq)
                && forall i :: 0 <= i < |windows[k]| ==>
                     Abs(Residual(a, b, windows[k][i].q, options.model[k])) <= Bound() + options.maximumSpread
      ensures r == OK && options.referenceCount == 2 ==>
                windows[0] != [] && windows[1] != []
                && Agree(options, Average(windows[1]) - Average(windows[0]), options.model[1] - options.model[0])
    {
      hide Residual, Average, Agree, Describes, Spread;
      a, b := candidateA, candidateB;
      if phase != Review {
        return EState, a, b;
      }
      if revision <= options.expectedRevision || !evidencePresent {
        return EInval, a, b;
      }
      phase := Committed;
      forall k | 0 <= k < options.referenceCount
        ensures Finished(options, windows[k]) && Steady(options, windows[k])
        ensures forall i :: 0 <= i < |windows[k]| ==>
                  Abs(Residual(a, b, windows[k][i].q, options.model[k])) <= Bound() + options.maximumSpread
      {
        WindowFits(k);
      }
      return OK, a, b;
    }

    lemma WindowFits(k: nat)
      requires Valid() && Mapped() && k < options.referenceCount && phase != Aborted
      ensures Finished(options, windows[k]) && Steady(options, windows[k])
      ensures forall i :: 0 <= i < |windows[k]| ==>
                Abs(Residual(candidateA, candidateB, windows[k][i].q, options.model[k])) <= Bound() + options.maximumSpread
    {
      assert Done(k) && Reference(k);
      var w, acc := windows[k], accumulators[k];
      MeanBetween(acc, w);
      hide SumQ, Mean, Residual, Times;
      forall i | 0 <= i < |w|
        ensures Abs(Residual(candidateA, candidateB, w[i].q, options.model[k])) <= Bound() + options.maximumSpread
      {
        SampleResidual(candidateA, candidateB, w[i].q, means[k], options.model[k], options.maximumSpread, Bound());
      }
    }

    method Abort() returns (r: Status)
      requires Valid()
      modifies this`phase, this`candidateA, this`candidateB
      ensures Valid() && (r == EState <==> old(phase) == Committed || old(phase) == Aborted)
      ensures r != EState ==> r == OK && phase == Aborted
      ensures r == EState ==> phase == old(phase)
    {
      if phase == Committed || phase == Aborted {
        return EState;
      }
      phase, candidateA, candidateB := Aborted, 0.0, 0.0;
      return OK;
    }
  }
}
