/**
 Passive health: what a node's own traffic says about it. A latency average in
 integer arithmetic, and a deadline on a clock truncated to whole seconds.
 */
module Health {
  import opened Ranking

  const U32_MAX: nat := 0xFFFF_FFFF
  const PENALTY_SECS: nat := 5
  const MAX_RETRY_AFTER_SECS: nat := 300
  const NANOS: nat := 1_000_000_000

  function Min(a: nat, b: nat): nat { if a <= b then a else b }

  function Max(a: nat, b: nat): nat { if a <= b then b else a }

  function SaturatingAdd(a: nat, b: nat): nat { Min(a + b, U32_MAX) }

  datatype Health = Health(emaUs: nat, untilS: nat)

  /** A node nothing has answered for, with no penalty against it. */
  const UNKNOWN: Health := Health(UNMEASURED, 0)

  // ---------------------------------------------------------------------
  // The average
  // ---------------------------------------------------------------------

  /** A round trip in microseconds, as the `u32` that is folded in. */
  function SampleOf(micros: nat): nat {
    if micros <= U32_MAX then micros else UNMEASURED - 1
  }

  function NextEma(ema: nat, sample: nat): nat {
    if ema == UNMEASURED then sample else SaturatingAdd(ema - ema / 8, sample / 8)
  }

  function EmaOf(ema: nat, samples: seq<nat>): nat {
    if samples == [] then ema else NextEma(EmaOf(ema, samples[..|samples| - 1]), samples[|samples| - 1])
  }

  /** A larger average or a larger sample never gives a smaller average. */
  lemma EmaMonotone(e: nat, e': nat, s: nat, s': nat)
    requires e <= e' < UNMEASURED && s <= s' < UNMEASURED
    ensures NextEma(e, s) <= NextEma(e', s')
  {}

  /** The average stays between the bounds its samples, and the average they are
      folded onto if there is one, stay between; so it neither saturates nor comes
      back to the sentinel. */
  lemma {:induction false} EmaBounded(first: nat, samples: seq<nat>, lo: nat, hi: nat)
    requires hi < UNMEASURED && if first == UNMEASURED then samples != [] else lo <= first <= hi
    requires forall i :: 0 <= i < |samples| ==> lo <= samples[i] <= hi
    ensures lo <= EmaOf(first, samples) <= hi
  {
    var n := |samples| - 1;
    if n > 0 || (n == 0 && first != UNMEASURED) {
      var e := EmaOf(first, samples[..n]);
      EmaBounded(first, samples[..n], lo, hi);
      EmaMonotone(lo, e, lo, samples[n]);
      EmaMonotone(e, hi, samples[n], hi);
    } else if n == 0 {
      assert samples[..n] == [];
    }
  }

  /** Raising any samples, or the average they are folded onto, cannot lower the
      average. */
  lemma {:induction false} EmaMonotoneInSamples(first: nat, above: nat, samples: seq<nat>, higher: seq<nat>)
    requires |samples| == |higher|
    requires if first == UNMEASURED then above == UNMEASURED && samples != [] else first <= above < UNMEASURED
    requires forall i :: 0 <= i < |samples| ==> samples[i] <= higher[i] < UNMEASURED
    ensures EmaOf(first, samples) <= EmaOf(above, higher) < UNMEASURED
  {
    var n := |samples| - 1;
    if n > 0 || (n == 0 && first != UNMEASURED) {
      EmaMonotoneInSamples(first, above, samples[..n], higher[..n]);
      EmaMonotone(EmaOf(first, samples[..n]), EmaOf(above, higher[..n]), samples[n], higher[n]);
    } else if n == 0 {
      assert samples[..n] == [] && higher[..n] == [];
    }
  }

  function Distance(a: nat, b: nat): nat { if a <= b then b - a else a - b }

  /** One constant sample: the average stands still exactly when it agrees with
      the sample to within its last three bits; otherwise it moves towards the
      sample, by at least one, and never past it. */
  lemma ConstantSampleStep(e: nat, s: nat)
    requires e < UNMEASURED && s < UNMEASURED
    ensures NextEma(e, s) == e <==> e / 8 == s / 8
    ensures Distance(NextEma(e, s), s) <= Distance(e, s)
    ensures e / 8 != s / 8 ==> Distance(NextEma(e, s), s) < Distance(e, s)
    ensures e <= s ==> e <= NextEma(e, s) <= s
    ensures s <= e ==> s <= NextEma(e, s) <= e
    ensures e / 8 == s / 8 ==> Distance(e, s) <= 7
  {}

  function Steady(e: nat, s: nat, n: nat): nat {
    if n == 0 then e else NextEma(Steady(e, s, n - 1), s)
  }

  lemma {:induction false} SteadyApproaches(e: nat, s: nat, n: nat)
    requires e < UNMEASURED && s < UNMEASURED
    ensures Steady(e, s, n) < UNMEASURED
    ensures Steady(e, s, n) / 8 == s / 8 || Distance(Steady(e, s, n), s) + n <= Distance(e, s)
  {
    if n > 0 {
      SteadyApproaches(e, s, n - 1);
      ConstantSampleStep(Steady(e, s, n - 1), s);
    }
  }

  lemma SteadySettles(e: nat, s: nat, n: nat)
    requires e < UNMEASURED && s < UNMEASURED && n >= Distance(e, s)
    ensures Steady(e, s, n) / 8 == s / 8
  {
    SteadyApproaches(e, s, n);
  }

  lemma SameEighth(a: nat, b: nat)
    requires a / 8 == b / 8
    ensures Distance(a, b) <= 7
  {}

  lemma SteadyStaysPut(e: nat, s: nat, n: nat)
    requires e < UNMEASURED && s < UNMEASURED && n > 0 && Steady(e, s, n - 1) / 8 == s / 8
    ensures Steady(e, s, n) == Steady(e, s, n - 1)
  {
    SteadyApproaches(e, s, n - 1);
    ConstantSampleStep(Steady(e, s, n - 1), s);
  }

  lemma {:induction false} SteadyFromThenOn(e: nat, s: nat, n: nat)
    requires e < UNMEASURED && s < UNMEASURED && n >= Distance(e, s)
    ensures Steady(e, s, n) == Steady(e, s, Distance(e, s))
  {
    if n > Distance(e, s) {
      SteadyFromThenOn(e, s, n - 1);
      SteadySettles(e, s, n - 1);
      SteadyStaysPut(e, s, n);
    }
  }

  /** Under a constant sample the average is within 7 microseconds of it after no
      more steps than it was microseconds away, and never moves again. */
  lemma EmaConverges(e: nat, s: nat, n: nat)
    requires e < UNMEASURED && s < UNMEASURED && n >= Distance(e, s)
    ensures Distance(Steady(e, s, n), s) <= 7
    ensures Steady(e, s, n) == Steady(e, s, Distance(e, s))
  {
    SteadySettles(e, s, n);
    SameEighth(Steady(e, s, n), s);
    SteadyFromThenOn(e, s, n);
  }

  // ---------------------------------------------------------------------
  // Answers that race
  // ---------------------------------------------------------------------

  /** Folding an answer in is a load and a separate store. */
  datatype Folding = Measured | Loaded(seen: nat) | Stored

  datatype Answer = Answer(sample: nat, phase: Folding)

  /** `first` is the average the node was built with: none, or the one a reload
      copied. */
  datatype Race = Race(first: nat, emaUs: nat, answers: seq<Answer>)

  ghost predicate Arrive(r: Race, r': Race, sample: nat) {
    r' == r.(answers := r.answers + [Answer(sample, Measured)])
  }

  ghost predicate Load(r: Race, r': Race, i: nat) {
    && i < |r.answers| && r.answers[i].phase.Measured?
    && r' == r.(answers := r.answers[i := r.answers[i].(phase := Loaded(r.emaUs))])
  }

  ghost predicate Store(r: Race, r': Race, i: nat) {
    && i < |r.answers| && r.answers[i].phase.Loaded?
    && r' == r.(emaUs := NextEma(r.answers[i].phase.seen, r.answers[i].sample),
                answers := r.answers[i := r.answers[i].(phase := Stored)])
  }

  ghost predicate Next(r: Race, r': Race) {
    || (exists sample :: Arrive(r, r', sample))
    || (exists i :: Load(r, r', i))
    || (exists i :: Store(r, r', i))
  }

  ghost predicate StepAt(run: seq<Race>, k: nat)
    requires k + 1 < |run|
  {
    Next(run[k], run[k + 1])
  }

  ghost predicate IsRun(run: seq<Race>) {
    run != [] && run[0] == Race(run[0].first, run[0].first, []) && forall k :: 0 <= k < |run| - 1 ==> StepAt(run, k)
  }

  /** A selection of answers already stored, none of them twice. */
  ghost predicate Chosen(r: Race, chain: seq<nat>) {
    && (forall j :: 0 <= j < |chain| ==> chain[j] < |r.answers| && r.answers[chain[j]].phase.Stored?)
    && (forall i, j :: 0 <= i < j < |chain| ==> chain[i] != chain[j])
  }

  ghost function SamplesAt(r: Race, chain: seq<nat>): (samples: seq<nat>)
    requires Chosen(r, chain)
    ensures |samples| == |chain| && forall j :: 0 <= j < |chain| ==> samples[j] == r.answers[chain[j]].sample
  {
    seq(|chain|, j requires 0 <= j < |chain| => r.answers[chain[j]].sample)
  }

  /** The value is what these answers, folded one after another onto the first
      average, come to. */
  ghost predicate Explains(r: Race, value: nat, chain: seq<nat>) {
    Chosen(r, chain) && value == EmaOf(r.first, SamplesAt(r, chain))
  }

  ghost predicate AnyStored(r: Race) {
    exists i :: 0 <= i < |r.answers| && r.answers[i].phase.Stored?
  }

  ghost predicate Explained(r: Race, value: nat) {
    exists chain :: Explains(r, value, chain)
  }

  ghost predicate RaceInv(r: Race) {
    && (exists chain :: Explains(r, r.emaUs, chain) && (AnyStored(r) ==> chain != []))
    && (forall i :: 0 <= i < |r.answers| && r.answers[i].phase.Loaded? ==> Explained(r, r.answers[i].phase.seen))
  }

  /** Answers already stored stay stored, with the samples they had. */
  ghost predicate Extends(r: Race, r': Race) {
    && r'.first == r.first && |r.answers| <= |r'.answers|
    && forall i :: 0 <= i < |r.answers| && r.answers[i].phase.Stored? ==> r'.answers[i] == r.answers[i]
  }

  lemma ExplainsStays(r: Race, r': Race, value: nat, chain: seq<nat>)
    requires Explains(r, value, chain) && Extends(r, r')
    ensures Explains(r', value, chain)
  {
    assert SamplesAt(r', chain) == SamplesAt(r, chain);
  }

  lemma EmaSnoc(ema: nat, samples: seq<nat>, sample: nat)
    ensures EmaOf(ema, samples + [sample]) == NextEma(EmaOf(ema, samples), sample)
  {
    assert (samples + [sample])[..|samples|] == samples;
  }

  /** What is stored is explained by what was loaded, and this answer last. */
  lemma StoreExplained(r: Race, r': Race, i: nat, chain: seq<nat>)
    requires Store(r, r', i) && Explains(r, r.answers[i].phase.seen, chain)
    ensures Explains(r', r'.emaUs, chain + [i])
  {
    ExplainsStays(r, r', r.answers[i].phase.seen, chain);
    EmaSnoc(r.first, SamplesAt(r', chain), r.answers[i].sample);
    assert SamplesAt(r', chain + [i]) == SamplesAt(r', chain) + [r.answers[i].sample];
  }

  lemma LoadsStayExplained(r: Race, r': Race, i: nat)
    requires RaceInv(r) && Extends(r, r') && i < |r.answers| && r.answers[i].phase.Loaded?
    ensures Explained(r', r.answers[i].phase.seen)
  {
    assert Explained(r, r.answers[i].phase.seen);
    var chain :| Explains(r, r.answers[i].phase.seen, chain);
    ExplainsStays(r, r', r.answers[i].phase.seen, chain);
  }

  /** A step that stores nothing: loads that were made stay explained, and a new one
      loads the average itself. */
  lemma QuietKeepsRaceInv(r: Race, r': Race)
    requires RaceInv(r) && Extends(r, r') && r'.emaUs == r.emaUs && (AnyStored(r') ==> AnyStored(r))
    requires forall i :: 0 <= i < |r'.answers| && r'.answers[i].phase.Loaded? ==>
               || (i < |r.answers| && r'.answers[i] == r.answers[i])
               || r'.answers[i].phase.seen == r.emaUs
    ensures RaceInv(r')
  {
    var chain :| Explains(r, r.emaUs, chain) && (AnyStored(r) ==> chain != []);
    ExplainsStays(r, r', r.emaUs, chain);
    forall i | 0 <= i < |r'.answers| && r'.answers[i].phase.Loaded?
      ensures Explained(r', r'.answers[i].phase.seen)
    {
      if i < |r.answers| && r'.answers[i] == r.answers[i] {
        LoadsStayExplained(r, r', i);
      }
    }
  }

  lemma ArriveIsQuiet(r: Race, r': Race, sample: nat)
    requires RaceInv(r) && Arrive(r, r', sample)
    ensures RaceInv(r')
  {
    QuietKeepsRaceInv(r, r');
  }

  lemma LoadIsQuiet(r: Race, r': Race, i: nat)
    requires RaceInv(r) && Load(r, r', i)
    ensures RaceInv(r')
  {
    QuietKeepsRaceInv(r, r');
  }

  lemma StoreKeepsRaceInv(r: Race, r': Race, i: nat)
    requires RaceInv(r) && Store(r, r', i)
    ensures RaceInv(r')
  {
    assert Explained(r, r.answers[i].phase.seen);
    var chain :| Explains(r, r.answers[i].phase.seen, chain);
    StoreExplained(r, r', i, chain);
    assert chain + [i] != [];
    forall j | 0 <= j < |r'.answers| && r'.answers[j].phase.Loaded?
      ensures Explained(r', r'.answers[j].phase.seen)
    {
      LoadsStayExplained(r, r', j);
    }
  }

  lemma NextKeepsRaceInv(r: Race, r': Race)
    requires RaceInv(r) && Next(r, r')
    ensures RaceInv(r')
  {
    if i: nat :| Store(r, r', i) {
      StoreKeepsRaceInv(r, r', i);
    } else if i: nat :| Load(r, r', i) {
      LoadIsQuiet(r, r', i);
    } else {
      var sample :| Arrive(r, r', sample);
      ArriveIsQuiet(r, r', sample);
    }
  }

  lemma {:induction false} RunKeepsRaceInv(run: seq<Race>, k: nat)
    requires IsRun(run) && k < |run|
    ensures RaceInv(run[k])
  {
    if k == 0 {
      assert Explains(run[0], run[0].first, []);
    } else {
      RunKeepsRaceInv(run, k - 1);
      assert StepAt(run, k - 1);
      NextKeepsRaceInv(run[k - 1], run[k]);
    }
  }

  lemma {:induction false} FirstIsKept(run: seq<Race>, k: nat)
    requires IsRun(run) && k < |run|
    ensures run[k].first == run[0].first
  {
    if k > 0 {
      FirstIsKept(run, k - 1);
      assert StepAt(run, k - 1);
    }
  }

  /**
   Racing answers may lose samples and do nothing worse. Under every interleaving
   of loads and stores the average is exactly what some of the stored answers, each
   counted once, folded onto the average the node was built with, come to. It lies
   between the smallest and the largest of them, and reads as unmeasured only if the
   node was built unmeasured and no answer has been stored.
   */
  lemma RacingAnswersOnlyLoseSamples(run: seq<Race>, k: nat, lo: nat, hi: nat) returns (chain: seq<nat>)
    requires IsRun(run) && k < |run| && hi < UNMEASURED
    requires run[0].first == UNMEASURED || lo <= run[0].first <= hi
    requires forall i :: 0 <= i < |run[k].answers| ==> lo <= run[k].answers[i].sample <= hi
    ensures Explains(run[k], run[k].emaUs, chain) && run[k].first == run[0].first
    ensures if run[0].first == UNMEASURED && !AnyStored(run[k]) then run[k].emaUs == UNMEASURED
            else lo <= run[k].emaUs <= hi
  {
    RunKeepsRaceInv(run, k);
    FirstIsKept(run, k);
    var r := run[k];
    chain :| Explains(r, r.emaUs, chain) && (AnyStored(r) ==> chain != []);
    assert chain != [] ==> r.answers[chain[0]].phase.Stored?;
    if r.first != UNMEASURED || AnyStored(r) {
      EmaBounded(r.first, SamplesAt(r, chain), lo, hi);
    }
  }

  // ---------------------------------------------------------------------
  // The penalty
  // ---------------------------------------------------------------------

  /** Whole seconds since the process epoch, capped at what a `u32` holds. */
  function Seconds(nanos: nat): nat {
    Min(nanos / NANOS, U32_MAX)
  }

  function PenaltySecs(retryAfterS: nat): nat {
    Max(PENALTY_SECS, Min(retryAfterS, MAX_RETRY_AFTER_SECS))
  }

  function Deadline(nowS: nat, retryAfterS: nat): nat {
    SaturatingAdd(SaturatingAdd(nowS, 1), PenaltySecs(retryAfterS))
  }

  predicate IsPenalized(untilS: nat, nowS: nat) {
    nowS < untilS
  }

  lemma WholeSeconds(t: nat, secs: nat, t': nat)
    ensures t' < t + secs * NANOS ==> t' / NANOS < t / NANOS + 1 + secs
    ensures t' >= t + (secs + 1) * NANOS ==> t' / NANOS >= t / NANOS + 1 + secs
  {}

  /** The seconds a failure costs: what the upstream asked for, between 5 and 300. */
  lemma PenaltyInSeconds(r: nat)
    ensures PenaltySecs(r) == if r < 5 then 5 else if r > 300 then 300 else r
  {}

  /** A failure at `t` keeps the node out for `secs` seconds of real time: the ones
      asked for, no fewer than 5 and no more than 300; and for at most one second
      longer, until the clock itself runs out. Times are nanoseconds. `t'` is when a
      request was stamped, which may even be before the failure it runs into. */
  lemma PenaltyInRealTime(t: nat, retryAfterS: nat, t': nat)
    ensures var secs := if retryAfterS < 5 then 5 else if retryAfterS > 300 then 300 else retryAfterS;
            var until := Deadline(Seconds(t), retryAfterS);
            && (t' < t + secs * 1_000_000_000 ==>
              (IsPenalized(until, Seconds(t')) <==> t' / 1_000_000_000 < 0xFFFF_FFFF))
            && (t' >= t + (secs + 1) * 1_000_000_000 ==> !IsPenalized(until, Seconds(t')))
  {
    PenaltyInSeconds(retryAfterS);
    WholeSeconds(t, PenaltySecs(retryAfterS), t');
  }

  // ---------------------------------------------------------------------
  // Whole histories
  // ---------------------------------------------------------------------

  datatype Event =
    | Answered(micros: nat)
    | Failed(at: nat, retryAfterS: nat)
    | Rejected

  function Apply(h: Health, e: Event): Health {
    match e
    case Answered(micros) => Health(NextEma(h.emaUs, SampleOf(micros)), 0)
    case Failed(at, retryAfterS) => h.(untilS := Deadline(Seconds(at), retryAfterS))
    case Rejected => h
  }

  function ApplyAll(h: Health, es: seq<Event>): Health {
    if es == [] then h else Apply(ApplyAll(h, es[..|es| - 1]), es[|es| - 1])
  }

  lemma {:induction false} RejectionsSayNothing(h: Health, es: seq<Event>)
    requires forall i :: 0 <= i < |es| ==> es[i].Rejected?
    ensures ApplyAll(h, es) == h
  {
    if es != [] {
      RejectionsSayNothing(h, es[..|es| - 1]);
    }
  }

  lemma {:induction false} ApplyConcat(h: Health, a: seq<Event>, b: seq<Event>)
    ensures ApplyAll(h, a + b) == ApplyAll(ApplyAll(h, a), b)
  {
    if b == [] {
      assert a + b == a;
    } else {
      var n := |b| - 1;
      ApplyConcat(h, a, b[..n]);
      assert (a + b)[..|a + b| - 1] == a + b[..n];
    }
  }

  /** After any history at all, a failure holds the node out for its penalty, and
      no number of rejections in between shortens or lengthens it. */
  lemma FailureKeepsNodeOut(h: Health, past: seq<Event>, t: nat, retryAfterS: nat, since: seq<Event>, t': nat)
    requires forall i :: 0 <= i < |since| ==> since[i].Rejected?
    requires t' / 1_000_000_000 < 0xFFFF_FFFF
    ensures var until := ApplyAll(h, past + [Failed(t, retryAfterS)] + since).untilS;
            var secs := if retryAfterS < 5 then 5 else if retryAfterS > 300 then 300 else retryAfterS;
            && (t' < t + secs * 1_000_000_000 ==> IsPenalized(until, Seconds(t')))
            && (t' >= t + (secs + 1) * 1_000_000_000 ==> !IsPenalized(until, Seconds(t')))
  {
    var failed := past + [Failed(t, retryAfterS)];
    ApplyConcat(h, failed, since);
    RejectionsSayNothing(ApplyAll(h, failed), since);
    assert failed[..|past|] == past;
    PenaltyInRealTime(t, retryAfterS, t');
  }

  /** A served request clears the penalty, whatever was standing. */
  lemma AnswerClearsPenalty(h: Health, past: seq<Event>, micros: nat, nowS: nat)
    ensures !IsPenalized(ApplyAll(h, past + [Answered(micros)]).untilS, nowS)
  {
    assert (past + [Answered(micros)])[..|past|] == past;
  }

  /** A node that never served a request, however much it rejected or failed, is
      still unmeasured: it ranks behind every measured node of its tier. */
  lemma {:induction false} OnlyAnswersMeasure(past: seq<Event>)
    requires forall i :: 0 <= i < |past| ==> !past[i].Answered?
    ensures ApplyAll(UNKNOWN, past).emaUs == UNMEASURED
  {
    if past != [] {
      OnlyAnswersMeasure(past[..|past| - 1]);
    }
  }

  lemma RejectorRanksBehindMeasured(past: seq<Event>, all: seq<Ref>, keys: map<Ref, Key>, ranked: seq<Ref>, i: nat,
                                    j: nat)
    requires forall k :: 0 <= k < |past| ==> !past[k].Answered?
    requires IsRanking(all, keys, ranked) && i < |ranked| && j < |ranked|
    requires keys[ranked[i]].tier == keys[ranked[j]].tier && keys[ranked[i]].emaUs < UNMEASURED
    requires keys[ranked[j]].emaUs == ApplyAll(UNKNOWN, past).emaUs
    ensures i < j
  {
    OnlyAnswersMeasure(past);
    UnmeasuredRanksLast(all, keys, ranked, i, j);
  }

  /** The first answer is the average, as far as it fits. */
  lemma FirstAnswerIsTheAverage(untilS: nat, micros: nat)
    ensures Apply(Health(0xFFFF_FFFF, untilS), Answered(micros)).emaUs
         == if micros <= 0xFFFF_FFFF then micros else 0xFFFF_FFFE
  {}

  /** Every later answer weighs one eighth, up to the bits that are cut off. */
  lemma AnswerWeighsAnEighth(h: Health, micros: nat)
    requires h.emaUs < 0xFFFF_FFFF && micros < 0xFFFF_FFFF
    ensures -7 <= 8 * Apply(h, Answered(micros)).emaUs - (7 * h.emaUs + micros) <= 7
  {}

  /** An answer leaves a node unmeasured only if it was, and only for the one
      round trip whose microseconds spell the sentinel. */
  lemma AnswerMeasuresUnless(h: Health, micros: nat)
    requires h.emaUs <= U32_MAX
    ensures Apply(h, Answered(micros)).emaUs == UNMEASURED <==> h.emaUs == UNMEASURED && micros == U32_MAX
    ensures Apply(h, Answered(micros)).emaUs <= U32_MAX
  {}

  /** The samples of the served requests in a history, oldest first. */
  function Samples(es: seq<Event>): seq<nat> {
    if es == [] then []
    else
      var rest := Samples(es[..|es| - 1]);
      match es[|es| - 1]
      case Answered(micros) => rest + [SampleOf(micros)]
      case _ => rest
  }

  /** The average is a function of the served requests alone, and of the one the
      node was built with. */
  lemma {:induction false} AverageOfAnswers(h: Health, es: seq<Event>)
    ensures ApplyAll(h, es).emaUs == EmaOf(h.emaUs, Samples(es))
  {
    if es != [] {
      var n := |es| - 1;
      AverageOfAnswers(h, es[..n]);
      if es[n].Answered? {
        var rest := Samples(es[..n]);
        assert (rest + [SampleOf(es[n].micros)])[..|rest|] == rest;
      }
    }
  }

  /** A second failure swaps the deadline, it does not take the later one: the
      first cooldown is cut short exactly when the second ends sooner. */
  lemma SecondFailureSwaps(h: Health, t: nat, r: nat, t': nat, r': nat)
    ensures var first := Apply(h, Failed(t, r));
            var second := Apply(first, Failed(t', r'));
            second.untilS < first.untilS
            <==> (&& t' / NANOS + PenaltySecs(r') < t / NANOS + PenaltySecs(r)
                  && t' / NANOS + 1 + PenaltySecs(r') < U32_MAX)
  {}

  lemma CooldownCanShrink()
    ensures Apply(Apply(UNKNOWN, Failed(0, 300)), Failed(NANOS, 0)).untilS == 7
    ensures Apply(UNKNOWN, Failed(0, 300)).untilS == 301
  {}

  // ---------------------------------------------------------------------
  // Answers and failures that race for the deadline
  // ---------------------------------------------------------------------

  /** An answer clears the penalty in two steps: it loads the deadline and, if one
      was set, stores zero. A failure swaps its deadline in at once. */
  datatype Clearing = Serving | SawPenalty | Settled

  datatype Contest = Contest(untilS: nat, answers: seq<Clearing>)

  datatype Move =
    | Serve
    | Fail(at: nat, retryAfterS: nat)
    | LoadUntil(i: nat)
    | StoreZero(i: nat)

  ghost predicate Moves(c: Contest, c': Contest, m: Move) {
    match m
    case Serve => c' == c.(answers := c.answers + [Serving])
    case Fail(at, retryAfterS) => c' == c.(untilS := Deadline(Seconds(at), retryAfterS))
    case LoadUntil(i) =>
      && i < |c.answers| && c.answers[i].Serving?
      && c' == c.(answers := c.answers[i := if c.untilS == 0 then Settled else SawPenalty])
    case StoreZero(i) =>
      && i < |c.answers| && c.answers[i].SawPenalty?
      && c' == Contest(0, c.answers[i := Settled])
  }

  ghost predicate MovesAt(run: seq<Contest>, moves: seq<Move>, k: nat)
    requires k + 1 < |run| && k < |moves|
  {
    Moves(run[k], run[k + 1], moves[k])
  }

  ghost predicate IsContest(run: seq<Contest>, moves: seq<Move>) {
    |run| == |moves| + 1 && forall k :: 0 <= k < |moves| ==> MovesAt(run, moves, k)
  }

  /** The moment an answer counts: its store, or a load that found nothing set. */
  ghost predicate TakesEffect(c: Contest, m: Move) {
    m.StoreZero? || (m.LoadUntil? && c.untilS == 0)
  }

  /** The race as a plain history, each answer at the moment it took effect. */
  ghost function Linearized(run: seq<Contest>, moves: seq<Move>, micros: nat, k: nat): seq<Event>
    requires k <= |moves| <= |run|
  {
    if k == 0 then []
    else Linearized(run, moves, micros, k - 1)
         + (match moves[k - 1]
            case Fail(at, retryAfterS) => [Failed(at, retryAfterS)]
            case m => if TakesEffect(run[k - 1], m) then [Answered(micros)] else [])
  }

  lemma ApplySnoc(h: Health, es: seq<Event>, e: Event)
    ensures ApplyAll(h, es + [e]) == Apply(ApplyAll(h, es), e)
    ensures es + [] == es
  {
    assert (es + [e])[..|es|] == es;
  }

  /** Under every interleaving of loads, stores and swaps the deadline is the one
      the linearized history leaves. */
  lemma {:induction false} DeadlineIsLinearizable(run: seq<Contest>, moves: seq<Move>, ema: nat, micros: nat, k: nat)
    requires IsContest(run, moves) && k < |run|
    ensures run[k].untilS == ApplyAll(Health(ema, run[0].untilS), Linearized(run, moves, micros, k)).untilS
  {
    if k > 0 {
      DeadlineIsLinearizable(run, moves, ema, micros, k - 1);
      assert MovesAt(run, moves, k - 1);
      var es := Linearized(run, moves, micros, k - 1);
      var h := Health(ema, run[0].untilS);
      match moves[k - 1] {
        case Fail(at, retryAfterS) => ApplySnoc(h, es, Failed(at, retryAfterS));
        case _ => ApplySnoc(h, es, Answered(micros));
      }
    }
  }

  /** After a failure and no other since, the deadline is the failure's own as long
      as no answer has stored zero over it, and gone from the first such store on. */
  lemma {:induction false} LastFailureStandsUnlessCleared(run: seq<Contest>, moves: seq<Move>, p: nat, k: nat)
    requires IsContest(run, moves) && p < k < |run| && moves[p].Fail?
    requires forall q :: p < q < k ==> !moves[q].Fail?
    ensures run[k].untilS == if exists q :: p < q < k && moves[q].StoreZero? then 0
                             else Deadline(Seconds(moves[p].at), moves[p].retryAfterS)
  {
    assert MovesAt(run, moves, k - 1);
    if k > p + 1 {
      LastFailureStandsUnlessCleared(run, moves, p, k - 1);
      if moves[k - 1].StoreZero? {
        assert p < k - 1 < k;
      }
    }
  }

  /** An answer that has its store still to come, and loaded nothing since, had
      loaded at the start already. */
  lemma {:induction false} SawBefore(run: seq<Contest>, moves: seq<Move>, i: nat, q: nat)
    requires IsContest(run, moves) && q < |run| && i < |run[q].answers| && run[q].answers[i].SawPenalty?
    requires forall p :: 0 <= p < q ==> moves[p] != LoadUntil(i)
    ensures i < |run[0].answers| && run[0].answers[i].SawPenalty?
  {
    if q > 0 {
      assert MovesAt(run, moves, q - 1);
      SawBefore(run, moves, i, q - 1);
    }
  }

  /** A run from `c` that begins with the failure, in which a later store comes from
      an answer that loaded no deadline since. */
  ghost predicate WipedByOldAnswer(c: Contest, at: nat, retryAfterS: nat, run: seq<Contest>, moves: seq<Move>,
                                   q: nat, i: nat)
  {
    && IsContest(run, moves) && run[0] == c && 0 < q < |moves|
    && moves[0] == Fail(at, retryAfterS) && moves[q] == StoreZero(i)
    && forall p :: 0 <= p < q ==> moves[p] != LoadUntil(i)
  }

  /** A failure's penalty can be wiped out by an answer older than the failure,
      exactly if such an answer is between its load and its store when the failure
      happens. */
  lemma OldAnswerCanClearIff(c: Contest, at: nat, retryAfterS: nat)
    ensures (exists run, moves, q, i :: WipedByOldAnswer(c, at, retryAfterS, run, moves, q, i))
       <==> (exists i :: 0 <= i < |c.answers| && c.answers[i].SawPenalty?)
  {
    if run, moves, q, i :| WipedByOldAnswer(c, at, retryAfterS, run, moves, q, i) {
      assert MovesAt(run, moves, q);
      SawBefore(run, moves, i, q);
    }
    if i :| 0 <= i < |c.answers| && c.answers[i].SawPenalty? {
      var failed := c.(untilS := Deadline(Seconds(at), retryAfterS));
      var moves := [Fail(at, retryAfterS), StoreZero(i)];
      var run := [c, failed, Contest(0, c.answers[i := Settled])];
      assert MovesAt(run, moves, 0) && MovesAt(run, moves, 1);
      assert WipedByOldAnswer(c, at, retryAfterS, run, moves, 1, i);
    }
  }

  // Each answer is one event of the linearized history.

  ghost predicate SettledAt(c: Contest, i: nat) {
    i < |c.answers| && c.answers[i].Settled?
  }

  ghost predicate EffectOf(c: Contest, m: Move, i: nat) {
    TakesEffect(c, m) && m.i == i
  }

  /** How often answer `i` has taken effect. */
  ghost function Effects(run: seq<Contest>, moves: seq<Move>, i: nat, k: nat): nat
    requires k <= |moves| <= |run|
  {
    if k == 0 then 0 else Effects(run, moves, i, k - 1) + if EffectOf(run[k - 1], moves[k - 1], i) then 1 else 0
  }

  /** An answer takes effect once, at the move that settles it, and never again. */
  lemma {:induction false} EachAnswerCountsOnce(run: seq<Contest>, moves: seq<Move>, i: nat, k: nat)
    requires IsContest(run, moves) && k < |run| && !SettledAt(run[0], i)
    ensures Effects(run, moves, i, k) == if SettledAt(run[k], i) then 1 else 0
  {
    if k > 0 {
      EachAnswerCountsOnce(run, moves, i, k - 1);
      assert MovesAt(run, moves, k - 1);
    }
  }

  function AnsweredIn(es: seq<Event>): nat {
    if es == [] then 0 else AnsweredIn(es[..|es| - 1]) + if es[|es| - 1].Answered? then 1 else 0
  }

  function SettledIn(answers: seq<Clearing>): nat {
    if answers == [] then 0 else SettledIn(answers[..|answers| - 1]) + if answers[|answers| - 1].Settled? then 1 else 0
  }

  lemma {:induction false} SettledUpdate(answers: seq<Clearing>, i: nat, c: Clearing)
    requires i < |answers| && !answers[i].Settled?
    ensures SettledIn(answers[i := c]) == SettledIn(answers) + if c.Settled? then 1 else 0
  {
    var n := |answers| - 1;
    if i == n {
      assert answers[i := c][..n] == answers[..n];
    } else {
      SettledUpdate(answers[..n], i, c);
      assert answers[i := c][..n] == answers[..n][i := c];
    }
  }

  lemma SettledMove(c: Contest, c': Contest, m: Move)
    requires Moves(c, c', m)
    ensures SettledIn(c'.answers) == SettledIn(c.answers) + if TakesEffect(c, m) then 1 else 0
  {
    match m {
      case Serve => assert (c.answers + [Serving])[..|c.answers|] == c.answers;
      case Fail(_, _) =>
      case LoadUntil(i) => SettledUpdate(c.answers, i, c'.answers[i]);
      case StoreZero(i) => SettledUpdate(c.answers, i, Settled);
    }
  }

  lemma AnsweredSnoc(es: seq<Event>, e: Event)
    ensures AnsweredIn(es + [e]) == AnsweredIn(es) + if e.Answered? then 1 else 0
    ensures es + [] == es
  {
    assert (es + [e])[..|es|] == es;
  }

  /** The linearized history has one event for every answer settled, and none for
      the others. */
  lemma {:induction false} LinearizedCountsAnswers(run: seq<Contest>, moves: seq<Move>, micros: nat, k: nat)
    requires IsContest(run, moves) && k < |run|
    ensures AnsweredIn(Linearized(run, moves, micros, k)) + SettledIn(run[0].answers) == SettledIn(run[k].answers)
  {
    if k > 0 {
      LinearizedCountsAnswers(run, moves, micros, k - 1);
      assert MovesAt(run, moves, k - 1);
      SettledMove(run[k - 1], run[k], moves[k - 1]);
      var es := Linearized(run, moves, micros, k - 1);
      match moves[k - 1] {
        case Fail(at, retryAfterS) => AnsweredSnoc(es, Failed(at, retryAfterS));
        case _ => AnsweredSnoc(es, Answered(micros));
      }
    }
  }

  /** The store may come from an answer older than the failure it wipes out: the
      answer loads a deadline of 6, a failure sets one of 301, the store clears it. */
  lemma OldAnswerClearsNewPenalty() returns (run: seq<Contest>, moves: seq<Move>)
    ensures IsContest(run, moves) && moves == [Fail(0, 0), Serve, LoadUntil(0), Fail(0, 300), StoreZero(0)]
    ensures run[3].untilS == 6 && run[4].untilS == 301 && run[5].untilS == 0
  {
    moves := [Fail(0, 0), Serve, LoadUntil(0), Fail(0, 300), StoreZero(0)];
    run := [Contest(0, []), Contest(6, []), Contest(6, [Serving]), Contest(6, [SawPenalty]),
            Contest(301, [SawPenalty]), Contest(0, [Settled])];
    assert MovesAt(run, moves, 0) && MovesAt(run, moves, 1) && MovesAt(run, moves, 2);
    assert MovesAt(run, moves, 3) && MovesAt(run, moves, 4);
  }

  // ---------------------------------------------------------------------
  // The node's two fields
  // ---------------------------------------------------------------------

  class NodeHealth {
    var emaUs: nat
    var untilS: nat

    constructor ()
      ensures Value() == UNKNOWN
    {
      emaUs, untilS := UNMEASURED, 0;
    }

    function Value(): Health
      reads this
    {
      Health(emaUs, untilS)
    }

    method ObserveAnswer(micros: nat)
      modifies this
      ensures Value() == Apply(old(Value()), Answered(micros))
    {
      var sample := if micros <= U32_MAX then micros else UNMEASURED - 1;
      if emaUs == UNMEASURED {
        emaUs := sample;
      } else {
        emaUs := SaturatingAdd(emaUs - emaUs / 8, sample / 8);
      }
      if untilS != 0 {
        untilS := 0;
      }
    }

    method Penalize(nowNanos: nat, retryAfterS: nat)
      modifies this`untilS
      ensures Value() == Apply(old(Value()), Failed(nowNanos, retryAfterS))
    {
      var nowS := Seconds(nowNanos);
      var seconds := Max(PENALTY_SECS, Min(retryAfterS, MAX_RETRY_AFTER_SECS));
      untilS := SaturatingAdd(SaturatingAdd(nowS, 1), seconds);
    }
  }
}
