/** Finalizing a conversion that is already final. */
module FinalizeTwice {
  import opened Atif
  import opened Finalize

  /* ------------------------------------------------------------------ one step */

  /** Facts that are in an object already change nothing when they are put in again. */
  predicate Has(extra: Extra, facts: Extra) { extra + facts == extra }

  lemma HasBoth(extra: Extra, a: Extra, b: Extra)
    requires Has(extra, a)
    ensures Has(extra, a + b) <==> Has(extra, b)
  {
  }

  lemma HasAfter(extra: Extra, facts: Extra)
    ensures Has(extra + facts, facts)
  {
  }

  lemma HasParts(extra: Extra, a: Extra, b: Extra)
    requires a.Keys !! b.Keys
    ensures Has(extra + (a + b), a) && Has(extra + (a + b), b)
  {
  }

  lemma HasBeside(extra: Extra, facts: Extra, key: string, value: Json)
    requires Has(extra, facts) && key !in facts
    ensures Has(extra[key := value], facts)
  {
  }

  /** Nothing is left for the repair: counted, contents are texts, ids are resolved. */
  predicate Normal(s: Step) {
    && (s.source.Agent? ==> s.llmCalls.Some?)
    && (s.observation.Some? ==> forall k | 0 <= k < |s.observation.value| ::
          && !Unmatched(s.observation.value[k], CallIds(s.calls))
          && (s.observation.value[k].content.Some? ==> IsContent(s.observation.value[k].content.value)))
  }

  lemma NormalIsFixed(s: Step, r: Rules)
    ensures Normal(NormalizeStep(s, r))
    ensures Normal(s) ==> NormalizeStep(s, r) == s
  {
    if Normal(s) && s.observation.Some? {
      var results := s.observation.value;
      forall k | 0 <= k < |results|
        ensures NormalizeResult(results[k], CallIds(s.calls), r) == results[k]
      {
        assert !Unmatched(results[k], CallIds(s.calls));
      }
      assert NormalizeResults(results, CallIds(s.calls), r) == results;
    }
  }

  /** The execution facts that the metadata name for one result. */
  function Execution(m: StepMeta, k: nat): Extra
    requires k < |m.observations|
  {
    ExecutionFacts(ToolOf(m.tools, OrEmpty(m.observations[k].source)))
  }

  /** A step that has all facts of its metadata, but perhaps not the execution facts of its results. */
  predicate Carries(s: Step, m: StepMeta, portable: bool, r: Rules) {
    && (m.timestamp.Some? && portable ==> s.timestamp == m.timestamp)
    && Has(s.extra, DurationFacts(m, r))
    && (forall i | 0 <= i < |s.calls| :: ProjectCall(s.calls[i], m, portable, r) == s.calls[i])
    && (forall k | 0 <= k < |Results(s)| && k < |m.observations| ::
          Has(Results(s)[k].extra, OwnFacts(m.observations[k], portable, r)))
  }

  /** Each result already has the execution facts of the tool that the metadata name for it. */
  predicate Settled(s: Step, m: StepMeta) {
    forall k | 0 <= k < |Results(s)| && k < |m.observations| :: Has(Results(s)[k].extra, Execution(m, k))
  }

  /** A step with its facts is projected to itself exactly when it is settled. */
  lemma ProjectAgain(s: Step, m: StepMeta, portable: bool, r: Rules)
    requires Carries(s, m, portable, r)
    ensures ProjectStep(s, m, portable, r) == s <==> Settled(s, m)
  {
    var p := ProjectStep(s, m, portable, r);
    assert p.calls == s.calls;
    forall k | 0 <= k < |Results(s)|
      ensures Results(p)[k] == Results(s)[k] <==> (k < |m.observations| ==> Has(Results(s)[k].extra, Execution(m, k)))
    {
      ResultAgain(Results(s)[k], m, k, portable, r);
    }
    if Settled(s, m) {
      assert Results(p) == Results(s);
    }
  }

  lemma ResultAgain(x: Result, m: StepMeta, k: nat, portable: bool, r: Rules)
    requires k < |m.observations| ==> Has(x.extra, OwnFacts(m.observations[k], portable, r))
    ensures x.(extra := x.extra + ResultFacts(m, k, portable, r)) == x <==>
          (k < |m.observations| ==> Has(x.extra, Execution(m, k)))
  {
    if k < |m.observations| {
      HasBoth(x.extra, OwnFacts(m.observations[k], portable, r), Execution(m, k));
    }
  }

  lemma FinalAgain(s: Step, m: StepMeta, portable: bool, r: Rules)
    requires Normal(s) && Carries(s, m, portable, r)
    ensures FinalStep(s, Some(m), portable, r) == s <==> Settled(s, m)
    ensures Normal(ProjectStep(s, m, portable, r)) && FinalStep(s, Some(m), portable, r) == ProjectStep(s, m, portable, r)
  {
    var p := ProjectStep(s, m, portable, r);
    ProjectAgain(s, m, portable, r);
    ProjectedCallIds(s, m, portable, r);
    NormalIsFixed(p, r);
  }

  /* ------------------------------------------------------------------ what one finalization leaves */

  lemma ProjectCallTwice(c: ToolCall, m: StepMeta, portable: bool, r: Rules)
    ensures ProjectCall(ProjectCall(c, m, portable, r), m, portable, r) == ProjectCall(c, m, portable, r)
  {
  }

  lemma FactKeys(m: ObservationMeta, t: Option<ToolMeta>, portable: bool, r: Rules)
    ensures OwnFacts(m, portable, r).Keys !! ExecutionFacts(t).Keys
    ensures "unmatched_source_call_id" !in OwnFacts(m, portable, r) && "unmatched_source_call_id" !in ExecutionFacts(t)
  {
  }

  /** The facts of a result survive the repair of its id. */
  lemma ResultHasFacts(x: Result, m: StepMeta, k: nat, calls: set<string>, portable: bool, r: Rules)
    requires k < |m.observations|
    ensures var y := NormalizeResult(x.(extra := x.extra + ResultFacts(m, k, portable, r)), calls, r);
      Has(y.extra, OwnFacts(m.observations[k], portable, r)) && Has(y.extra, Execution(m, k))
  {
    var own, executed := OwnFacts(m.observations[k], portable, r), Execution(m, k);
    FactKeys(m.observations[k], ToolOf(m.tools, OrEmpty(m.observations[k].source)), portable, r);
    HasParts(x.extra, own, executed);
    var extra := x.extra + (own + executed);
    if Unmatched(x, calls) {
      HasBeside(extra, own, "unmatched_source_call_id", Str(x.source.value));
      HasBeside(extra, executed, "unmatched_source_call_id", Str(x.source.value));
    }
  }

  /** A finalized step has the facts of the metadata it was finalized with. */
  lemma FinalCarries(s: Step, m: StepMeta, portable: bool, r: Rules)
    ensures var f := FinalStep(s, Some(m), portable, r);
      Normal(f) && Carries(f, m, portable, r) && Settled(f, m)
  {
    var p := ProjectStep(s, m, portable, r);
    var f := NormalizeStep(p, r);
    NormalIsFixed(p, r);
    HasAfter(s.extra, DurationFacts(m, r));
    forall i | 0 <= i < |f.calls|
      ensures ProjectCall(f.calls[i], m, portable, r) == f.calls[i]
    {
      ProjectCallTwice(s.calls[i], m, portable, r);
    }
    forall k | 0 <= k < |Results(f)| && k < |m.observations|
      ensures Has(Results(f)[k].extra, OwnFacts(m.observations[k], portable, r)) && Has(Results(f)[k].extra, Execution(m, k))
    {
      ResultHasFacts(Results(s)[k], m, k, CallIds(p.calls), portable, r);
    }
  }

  /** The metadata name for each result the id that the result has. */
  predicate Aligned(s: Step, m: StepMeta) {
    forall k | 0 <= k < |Results(s)| && k < |m.observations| :: m.observations[k].source == Results(s)[k].source
  }

  lemma AlignAligns(s: Step, m: StepMeta)
    ensures Aligned(s, Align(m, s)) && Align(m, s).timestamp == m.timestamp && Align(m, s).id == m.id
    ensures Aligned(s, m) ==> Align(m, s) == m
  {
  }

  lemma AlignedCarries(s: Step, m: StepMeta, portable: bool, r: Rules)
    requires Carries(s, m, portable, r)
    ensures Carries(s, Align(m, s), portable, r)
  {
    var a := Align(m, s);
    forall k | 0 <= k < |Results(s)| && k < |a.observations|
      ensures Has(Results(s)[k].extra, OwnFacts(a.observations[k], portable, r))
    {
      assert OwnFacts(a.observations[k], portable, r) == OwnFacts(m.observations[k], portable, r);
    }
  }

  /** A second finalization of the step leaves the ids of its results as they are. */
  lemma SourcesStay(s: Step, m: Option<StepMeta>, portable: bool, r: Rules)
    requires Normal(s) && (m.Some? ==> Carries(s, m.value, portable, r))
    ensures var f := FinalStep(s, m, portable, r);
      |Results(f)| == |Results(s)| && forall k | 0 <= k < |Results(s)| :: Results(f)[k].source == Results(s)[k].source
  {
  }

  lemma {:induction false} NoWarnings(results: seq<Result>, calls: set<string>, warnings: seq<string>, step: nat,
        n: nat, r: Rules)
    requires n <= |results| && forall k | 0 <= k < n :: !Unmatched(results[k], calls)
    ensures ResultWarnings(results, calls, warnings, step, n, r) == warnings
  {
    if n > 0 {
      NoWarnings(results, calls, warnings, step, n - 1, r);
    }
  }

  lemma NormalWarnsNothing(s: Step, warnings: seq<string>, step: nat, r: Rules)
    requires Normal(s)
    ensures StepWarnings(s, warnings, step, r) == warnings
  {
    if s.observation.Some? {
      NoWarnings(s.observation.value, CallIds(s.calls), warnings, step, |s.observation.value|, r);
    }
  }

  /* ------------------------------------------------------------------ all steps */

  /** The same metadata but for the ids that the observations name. */
  predicate SameFacts(a: StepMeta, b: StepMeta) {
    && a == b.(observations := a.observations) && |a.observations| == |b.observations|
    && forall k | 0 <= k < |a.observations| :: a.observations[k] == b.observations[k].(source := a.observations[k].source)
  }

  lemma SameFactsCarries(s: Step, a: StepMeta, b: StepMeta, portable: bool, r: Rules)
    requires SameFacts(a, b)
    ensures Carries(s, a, portable, r) <==> Carries(s, b, portable, r)
  {
    forall k | 0 <= k < |a.observations|
      ensures OwnFacts(a.observations[k], portable, r) == OwnFacts(b.observations[k], portable, r)
    {
    }
    assert DurationFacts(a, r) == DurationFacts(b, r);
    assert forall c :: ProjectCall(c, a, portable, r) == ProjectCall(c, b, portable, r);
  }

  lemma AlignKeepsFacts(s: Step, a: StepMeta, b: StepMeta)
    requires SameFacts(a, b)
    ensures SameFacts(Align(a, s), b)
  {
  }

  /** The position of the metadata a step is finalized with. */
  function BaseIndex(metas: seq<StepMeta>, i: nat): (j: Option<nat>)
    ensures j.Some? ==> j.value < |metas|
  {
    if MetaIndex(metas, i + 1).Some? then MetaIndex(metas, i + 1) else if i < |metas| then Some(i) else None
  }

  lemma {:induction false} SameIndex(a: seq<StepMeta>, b: seq<StepMeta>, id: int)
    requires |a| == |b| && forall j | 0 <= j < |a| :: a[j].id == b[j].id
    ensures MetaIndex(a, id) == MetaIndex(b, id)
  {
    if a != [] {
      SameIndex(a[..|a| - 1], b[..|b| - 1], id);
    }
  }

  /** A finalized step, with the metadata that are returned beside it. */
  predicate StepLeft(f: Step, i: nat, left: seq<StepMeta>, metas: seq<StepMeta>, portable: bool, r: Rules)
    requires |left| == |metas|
  {
    && f.id == i + 1 && Normal(f)
    && (BaseIndex(metas, i).Some? ==> Carries(f, left[BaseIndex(metas, i).value], portable, r))
    && (MetaIndex(metas, i + 1).Some? ==> Aligned(f, left[MetaIndex(metas, i + 1).value]))
  }

  ghost predicate Left(steps: seq<Step>, left: seq<StepMeta>, metas: seq<StepMeta>, portable: bool, r: Rules) {
    && |left| == |metas| && (forall j | 0 <= j < |metas| :: SameFacts(left[j], metas[j]))
    && forall i | 0 <= i < |steps| :: StepLeft(steps[i], i, left, metas, portable, r)
  }

  /** The new step and its metadata. */
  lemma NewStepLeft(p: Pass, metas: seq<StepMeta>, s: Step, n: nat, portable: bool, r: Rules)
    requires Left(p.steps, p.metas, metas, portable, r) && |p.steps| == n && s.id == n + 1
    ensures var q := TakeStep(p, metas, s, n, portable, r);
      |q.steps| == n + 1 && StepLeft(q.steps[n], n, q.metas, metas, portable, r)
  {
    var q := TakeStep(p, metas, s, n, portable, r);
    var m, f := MetaFor(metas, p.metas, s, n), q.steps[n];
    var found := MetaIndex(metas, n + 1);
    assert f == FinalStep(s, m, portable, r);
    if m.None? {
      NormalIsFixed(s, r);
    } else {
      FinalCarries(s, m.value, portable, r);
      if found.Some? {
        AlignedCarries(f, m.value, portable, r);
        AlignAligns(f, m.value);
      } else {
        SameFactsCarries(f, q.metas[n], metas[n], portable, r);
      }
    }
  }

  lemma TakeKeepsLeft(p: Pass, metas: seq<StepMeta>, s: Step, n: nat, portable: bool, r: Rules)
    requires Left(p.steps, p.metas, metas, portable, r) && |p.steps| == n && s.id == n + 1
    ensures var q := TakeStep(p, metas, s, n, portable, r);
      Left(q.steps, q.metas, metas, portable, r)
  {
    var q := TakeStep(p, metas, s, n, portable, r);
    var found := MetaIndex(metas, n + 1);
    NewStepLeft(p, metas, s, n, portable, r);
    if found.Some? {
      AlignKeepsFacts(q.steps[n], p.metas[found.value], metas[found.value]);
    }
    forall i | 0 <= i < |q.steps|
      ensures StepLeft(q.steps[i], i, q.metas, metas, portable, r)
    {
      if i < n {
        OldStepLeft(p.steps[i], i, p.metas, q.metas, metas, portable, r);
      }
    }
  }

  /** Aligning the metadata of another step changes nothing for this one. */
  lemma OldStepLeft(f: Step, i: nat, before: seq<StepMeta>, after: seq<StepMeta>, metas: seq<StepMeta>,
        portable: bool, r: Rules)
    requires |before| == |after| == |metas| && StepLeft(f, i, before, metas, portable, r)
    requires forall j | 0 <= j < |metas| :: SameFacts(before[j], metas[j]) && SameFacts(after[j], metas[j])
    requires forall j | 0 <= j < |metas| && metas[j].id == i + 1 :: after[j] == before[j]
    ensures StepLeft(f, i, after, metas, portable, r)
  {
    var base := BaseIndex(metas, i);
    if base.Some? {
      SameFactsCarries(f, before[base.value], metas[base.value], portable, r);
      SameFactsCarries(f, after[base.value], metas[base.value], portable, r);
    }
  }

  lemma {:induction false} PassesLeave(steps: seq<Step>, metas: seq<StepMeta>, warnings: seq<string>, portable: bool, r: Rules)
    requires forall i | 0 <= i < |steps| :: steps[i].id == i + 1
    ensures var p := Passes(steps, metas, warnings, portable, r);
      Left(p.steps, p.metas, metas, portable, r)
  {
    if steps != [] {
      var n := |steps| - 1;
      PassesLeave(steps[..n], metas, warnings, portable, r);
      TakeKeepsLeft(Passes(steps[..n], metas, warnings, portable, r), metas, steps[n], n, portable, r);
    }
  }

  /* ------------------------------------------------------------------ the second time over all steps */

  /** The metadata of a step the second time. */
  function SecondMeta(left: seq<StepMeta>, i: nat): Option<StepMeta> {
    if BaseIndex(left, i).Some? then Some(left[BaseIndex(left, i).value]) else None
  }

  predicate StepSettled(f: Step, left: seq<StepMeta>, i: nat) { SecondMeta(left, i).Some? ==> Settled(f, SecondMeta(left, i).value) }

  function Stamped(metas: seq<StepMeta>, n: nat, portable: bool): bool {
    n > 0 && (Stamped(metas, n - 1, portable) || (BaseIndex(metas, n - 1).Some? && Stamps(metas[BaseIndex(metas, n - 1).value], portable)))
  }

  lemma {:induction false} SameStamped(a: seq<StepMeta>, b: seq<StepMeta>, n: nat, portable: bool)
    requires |a| == |b| && forall j | 0 <= j < |a| :: SameFacts(a[j], b[j])
    ensures Stamped(a, n, portable) == Stamped(b, n, portable)
  {
    if n > 0 {
      SameStamped(a, b, n - 1, portable);
      SameIndex(a, b, n);
    }
  }

  lemma {:induction false} PassesStamp(steps: seq<Step>, metas: seq<StepMeta>, warnings: seq<string>, portable: bool, r: Rules)
    requires forall i | 0 <= i < |steps| :: steps[i].id == i + 1
    ensures Passes(steps, metas, warnings, portable, r).stamped == Stamped(metas, |steps|, portable)
  {
    if steps != [] {
      var n := |steps| - 1;
      PassesStamp(steps[..n], metas, warnings, portable, r);
      PassesLeave(steps[..n], metas, warnings, portable, r);
    }
  }

  lemma SecondTake(f: Step, left: seq<StepMeta>, metas: seq<StepMeta>, n: nat, p: Pass, portable: bool, r: Rules)
    requires |left| == |metas| && (forall j | 0 <= j < |metas| :: SameFacts(left[j], metas[j]))
    requires StepLeft(f, n, left, metas, portable, r) && p.metas == left
    ensures var q := TakeStep(p, left, f, n, portable, r);
      && q.metas == left && q.warnings == p.warnings && q.steps == p.steps + [FinalStep(f, SecondMeta(left, n), portable, r)]
      && (FinalStep(f, SecondMeta(left, n), portable, r) == f <==> StepSettled(f, left, n))
  {
    var q := TakeStep(p, left, f, n, portable, r);
    SameIndex(left, metas, n + 1);
    var m := SecondMeta(left, n);
    assert MetaFor(left, left, f, n) == m;
    SourcesStay(f, m, portable, r);
    var again := FinalStep(f, m, portable, r);
    if m.Some? {
      FinalAgain(f, m.value, portable, r);
      NormalWarnsNothing(ProjectStep(f, m.value, portable, r), p.warnings, n, r);
    } else {
      NormalIsFixed(f, r);
      NormalWarnsNothing(f, p.warnings, n, r);
    }
    if MetaIndex(left, n + 1).Some? {
      AlignAligns(again, m.value);
    }
  }

  ghost predicate AllSettled(steps: seq<Step>, left: seq<StepMeta>) { forall i | 0 <= i < |steps| :: StepSettled(steps[i], left, i) }

  lemma SettledSnoc(init: seq<Step>, last: Step, left: seq<StepMeta>)
    ensures AllSettled(init + [last], left) <==> AllSettled(init, left) && StepSettled(last, left, |init|)
  {
    var all := init + [last];
    assert forall i | 0 <= i < |init| :: all[i] == init[i];
    assert all[|init|] == last;
  }

  lemma LastApart<T>(xs: seq<T>)
    requires xs != []
    ensures xs == xs[..|xs| - 1] + [xs[|xs| - 1]]
  {
  }

  lemma EqualSnoc<T>(a: seq<T>, x: T, b: seq<T>, y: T)
    requires |a| == |b|
    ensures a + [x] == b + [y] <==> a == b && x == y
  {
    if a + [x] == b + [y] {
      assert (a + [x])[..|a|] == a && (b + [y])[..|a|] == b && (a + [x])[|a|] == x && (b + [y])[|a|] == y;
    }
  }

  /** What the second pass did over the first steps. */
  ghost predicate SecondTime(q: Pass, steps: seq<Step>, left: seq<StepMeta>, warnings: seq<string>) {
    && q.metas == left && q.warnings == warnings && |q.steps| == |steps|
    && (q.steps == steps <==> AllSettled(steps, left))
  }

  lemma SecondStep(before: Pass, init: seq<Step>, last: Step, left: seq<StepMeta>, metas: seq<StepMeta>,
        warnings: seq<string>, portable: bool, r: Rules)
    requires SecondTime(before, init, left, warnings) && |left| == |metas|
    requires (forall j | 0 <= j < |metas| :: SameFacts(left[j], metas[j])) && StepLeft(last, |init|, left, metas, portable, r)
    ensures SecondTime(TakeStep(before, left, last, |init|, portable, r), init + [last], left, warnings)
  {
    SecondTake(last, left, metas, |init|, before, portable, r);
    SettledSnoc(init, last, left);
    EqualSnoc(before.steps, FinalStep(last, SecondMeta(left, |init|), portable, r), init, last);
  }

  /** The second pass returns the same metadata and warnings, and the same steps exactly when all are settled. */
  lemma {:induction false} SecondPasses(steps: seq<Step>, left: seq<StepMeta>, metas: seq<StepMeta>,
        warnings: seq<string>, portable: bool, r: Rules)
    requires Left(steps, left, metas, portable, r)
    ensures SecondTime(Passes(steps, left, warnings, portable, r), steps, left, warnings)
  {
    if steps != [] {
      var n := |steps| - 1;
      SecondPasses(steps[..n], left, metas, warnings, portable, r);
      SecondStep(Passes(steps[..n], left, warnings, portable, r), steps[..n], steps[n], left, metas, warnings, portable, r);
      LastApart(steps);
    }
  }

  /* ------------------------------------------------------------------ before the first time */

  /** The id that a result has after the repair. */
  function Resolved(s: Step, k: nat): Option<string>
    requires k < |Results(s)|
  {
    if Unmatched(Results(s)[k], CallIds(s.calls)) then None else Results(s)[k].source
  }

  /** The id that metadata name for a result afterwards: they follow the step that found them by its number. */
  function NamedThen(steps: seq<Step>, metas: seq<StepMeta>, j: nat, k: nat): Option<string>
    requires j < |metas| && k < |metas[j].observations|
  {
    var n := metas[j].id - 1;
    if MetaIndex(metas, n + 1) == Some(j) && 0 <= n < |steps| && k < |Results(steps[n])| then Resolved(steps[n], k)
    else metas[j].observations[k].source
  }

  /** Each result of a step, with the facts that it is about to get, has the execution facts of the tool that
      its metadata will name. */
  predicate Settles(steps: seq<Step>, metas: seq<StepMeta>, i: nat, portable: bool, r: Rules)
    requires i < |steps|
  {
    BaseIndex(metas, i).Some? ==>
      var j := BaseIndex(metas, i).value;
      forall k | 0 <= k < |Results(steps[i])| && k < |metas[j].observations| ::
        Has(Results(steps[i])[k].extra + ResultFacts(metas[j], k, portable, r),
            ExecutionFacts(ToolOf(metas[j].tools, OrEmpty(NamedThen(steps, metas, j, k)))))
  }

  function AlignedMeta(metas: seq<StepMeta>, steps: seq<Step>, j: nat): StepMeta
    requires j < |metas|
  {
    var n := metas[j].id - 1;
    if MetaIndex(metas, n + 1) == Some(j) && 0 <= n < |steps| then Align(metas[j], steps[n]) else metas[j]
  }

  /** What the pass over numbered steps makes of each step and each metadata. */
  ghost predicate Traced(p: Pass, steps: seq<Step>, metas: seq<StepMeta>, portable: bool, r: Rules) {
    && |p.steps| == |steps| && |p.metas| == |metas|
    && (forall i | 0 <= i < |steps| :: p.steps[i] == FinalStep(steps[i], SecondMeta(metas, i), portable, r))
    && (forall j | 0 <= j < |metas| :: p.metas[j] == AlignedMeta(metas, p.steps, j))
  }

  lemma TakeTracesMetas(p: Pass, steps: seq<Step>, s: Step, metas: seq<StepMeta>, portable: bool, r: Rules)
    requires Traced(p, steps, metas, portable, r) && s.id == |steps| + 1
    ensures var q := TakeStep(p, metas, s, |steps|, portable, r);
      |q.metas| == |metas| && forall j | 0 <= j < |metas| :: q.metas[j] == AlignedMeta(metas, q.steps, j)
  {
    var q, n := TakeStep(p, metas, s, |steps|, portable, r), |steps|;
    forall j | 0 <= j < |metas|
      ensures q.metas[j] == AlignedMeta(metas, q.steps, j)
    {
      var at := metas[j].id - 1;
      assert p.metas[j] == AlignedMeta(metas, p.steps, j);
      assert 0 <= at < n ==> q.steps[at] == p.steps[at];
    }
  }

  lemma TakeTracesSteps(p: Pass, steps: seq<Step>, s: Step, metas: seq<StepMeta>, portable: bool, r: Rules)
    requires Traced(p, steps, metas, portable, r) && s.id == |steps| + 1
    ensures TakeStep(p, metas, s, |steps|, portable, r).steps == p.steps + [FinalStep(s, SecondMeta(metas, |steps|), portable, r)]
  {
    var n := |steps|;
    var base := BaseIndex(metas, n);
    assert base.Some? ==> p.metas[base.value] == AlignedMeta(metas, p.steps, base.value);
    assert MetaFor(metas, p.metas, s, n) == SecondMeta(metas, n);
  }

  lemma TakeTraces(p: Pass, steps: seq<Step>, s: Step, metas: seq<StepMeta>, portable: bool, r: Rules)
    requires Traced(p, steps, metas, portable, r) && s.id == |steps| + 1
    ensures Traced(TakeStep(p, metas, s, |steps|, portable, r), steps + [s], metas, portable, r)
  {
    var q, all := TakeStep(p, metas, s, |steps|, portable, r), steps + [s];
    TakeTracesMetas(p, steps, s, metas, portable, r);
    TakeTracesSteps(p, steps, s, metas, portable, r);
    forall i | 0 <= i < |all|
      ensures q.steps[i] == FinalStep(all[i], SecondMeta(metas, i), portable, r)
    {
      assert i < |steps| ==> q.steps[i] == p.steps[i] && all[i] == steps[i];
    }
  }

  lemma {:induction false} PassesTrace(steps: seq<Step>, metas: seq<StepMeta>, warnings: seq<string>, portable: bool, r: Rules)
    requires forall i | 0 <= i < |steps| :: steps[i].id == i + 1
    ensures Traced(Passes(steps, metas, warnings, portable, r), steps, metas, portable, r)
  {
    if steps != [] {
      var n := |steps| - 1;
      PassesTrace(steps[..n], metas, warnings, portable, r);
      TakeTraces(Passes(steps[..n], metas, warnings, portable, r), steps[..n], steps[n], metas, portable, r);
      LastApart(steps);
    }
  }

  lemma FinalSource(s: Step, m: Option<StepMeta>, k: nat, portable: bool, r: Rules)
    requires k < |Results(s)|
    ensures k < |Results(FinalStep(s, m, portable, r))| && Results(FinalStep(s, m, portable, r))[k].source == Resolved(s, k)
  {
    if m.Some? {
      ProjectedCallIds(s, m.value, portable, r);
    }
  }

  lemma FinalExtra(s: Step, m: StepMeta, k: nat, portable: bool, r: Rules)
    requires k < |Results(s)|
    ensures var extra, f := Results(s)[k].extra + ResultFacts(m, k, portable, r), FinalStep(s, Some(m), portable, r);
      k < |Results(f)| && Results(f)[k].extra ==
        if Unmatched(Results(s)[k], CallIds(s.calls)) then extra["unmatched_source_call_id" := Str(Results(s)[k].source.value)] else extra
  {
    ProjectedCallIds(s, m, portable, r);
  }

  lemma AlignAt(m: StepMeta, s: Step, k: nat)
    requires k < |m.observations|
    ensures Align(m, s).tools == m.tools && |Align(m, s).observations| == |m.observations|
    ensures Align(m, s).observations[k].source == if k < |Results(s)| then Results(s)[k].source else m.observations[k].source
  {
  }

  lemma HasBesideOnly(extra: Extra, facts: Extra, key: string, value: Json)
    requires key !in facts
    ensures Has(extra[key := value], facts) <==> Has(extra, facts)
  {
    if Has(extra[key := value], facts) {
      forall k | k in extra + facts
        ensures k in extra && (extra + facts)[k] == extra[k]
      {
        if k in facts {
          assert k in extra[key := value] + facts;
        }
      }
    }
  }

  lemma NamedAfter(p: Pass, steps: seq<Step>, metas: seq<StepMeta>, j: nat, k: nat, portable: bool, r: Rules)
    requires Traced(p, steps, metas, portable, r) && j < |metas| && k < |metas[j].observations|
    ensures p.metas[j].tools == metas[j].tools && |p.metas[j].observations| == |metas[j].observations|
    ensures p.metas[j].observations[k].source == NamedThen(steps, metas, j, k)
  {
    var n := metas[j].id - 1;
    assert p.metas[j] == AlignedMeta(metas, p.steps, j);
    if MetaIndex(metas, n + 1) == Some(j) && 0 <= n < |steps| {
      NumberOfResults(steps[n], SecondMeta(metas, n), portable, r);
      AlignAt(metas[j], p.steps[n], k);
      if k < |Results(steps[n])| {
        FinalSource(steps[n], SecondMeta(metas, n), k, portable, r);
      }
    }
  }

  /** One result comes out settled exactly when it was about to settle. */
  lemma ResultLater(p: Pass, steps: seq<Step>, metas: seq<StepMeta>, i: nat, j: nat, k: nat, portable: bool, r: Rules)
    requires Traced(p, steps, metas, portable, r) && i < |steps| && BaseIndex(metas, i) == Some(j)
    requires k < |Results(steps[i])| && k < |metas[j].observations|
    ensures k < |Results(p.steps[i])| && k < |p.metas[j].observations|
    ensures Has(Results(p.steps[i])[k].extra, Execution(p.metas[j], k)) <==>
      Has(Results(steps[i])[k].extra + ResultFacts(metas[j], k, portable, r), ExecutionFacts(ToolOf(metas[j].tools, OrEmpty(NamedThen(steps, metas, j, k)))))
  {
    var s, m := steps[i], metas[j];
    assert p.steps[i] == FinalStep(s, Some(m), portable, r);
    NamedAfter(p, steps, metas, j, k, portable, r);
    FinalExtra(s, m, k, portable, r);
    if Unmatched(Results(s)[k], CallIds(s.calls)) {
      FactKeys(m.observations[k], ToolOf(m.tools, OrEmpty(NamedThen(steps, metas, j, k))), portable, r);
      HasBesideOnly(Results(s)[k].extra + ResultFacts(m, k, portable, r), Execution(p.metas[j], k),
                    "unmatched_source_call_id", Str(Results(s)[k].source.value));
    }
  }

  lemma SameBase(p: Pass, steps: seq<Step>, metas: seq<StepMeta>, i: nat, portable: bool, r: Rules)
    requires Traced(p, steps, metas, portable, r)
    ensures BaseIndex(p.metas, i) == BaseIndex(metas, i)
    ensures forall j | 0 <= j < |metas| :: |p.metas[j].observations| == |metas[j].observations|
  {
    forall j | 0 <= j < |metas|
      ensures p.metas[j].id == metas[j].id && |p.metas[j].observations| == |metas[j].observations|
    {
      assert p.metas[j] == AlignedMeta(metas, p.steps, j);
    }
    SameIndex(p.metas, metas, i + 1);
  }

  /** A step comes out settled exactly when it was about to settle. */
  lemma SettledLater(p: Pass, steps: seq<Step>, metas: seq<StepMeta>, i: nat, portable: bool, r: Rules)
    requires Traced(p, steps, metas, portable, r) && i < |steps|
    ensures StepSettled(p.steps[i], p.metas, i) <==> Settles(steps, metas, i, portable, r)
  {
    SameBase(p, steps, metas, i, portable, r);
    var base := BaseIndex(metas, i);
    if base.Some? {
      var j := base.value;
      assert p.steps[i] == FinalStep(steps[i], Some(metas[j]), portable, r);
      NumberOfResults(steps[i], Some(metas[j]), portable, r);
      forall k | 0 <= k < |Results(steps[i])| && k < |metas[j].observations|
        ensures Has(Results(p.steps[i])[k].extra, Execution(p.metas[j], k)) <==>
          Has(Results(steps[i])[k].extra + ResultFacts(metas[j], k, portable, r),
              ExecutionFacts(ToolOf(metas[j].tools, OrEmpty(NamedThen(steps, metas, j, k)))))
      {
        ResultLater(p, steps, metas, i, j, k, portable, r);
      }
    }
  }

  lemma NumberOfResults(s: Step, m: Option<StepMeta>, portable: bool, r: Rules)
    ensures |Results(FinalStep(s, m, portable, r))| == |Results(s)|
  {
  }

  /* ------------------------------------------------------------------ a whole conversion */

  ghost predicate Holds(warnings: seq<string>, identifier: string, from: seq<string>) {
    forall k | 0 <= k < |from| :: identifier + ": " + from[k] in warnings
  }

  lemma {:induction false} AdoptHolds(warnings: seq<string>, identifier: string, from: seq<string>)
    ensures var all := Adopt(warnings, identifier, from);
      Holds(all, identifier, from) && warnings <= all
    ensures Holds(warnings, identifier, from) ==> Adopt(warnings, identifier, from) == warnings
  {
    if from != [] {
      var init := from[..|from| - 1];
      AdoptHolds(warnings, identifier, init);
      var before := Adopt(warnings, identifier, init);
      var all := Adopt(warnings, identifier, from);
      forall k | 0 <= k < |from|
        ensures identifier + ": " + from[k] in all
      {
        if k < |init| {
          assert identifier + ": " + init[k] in before;
        }
      }
    }
  }

  function NameOf(children: seq<Conversion>, i: nat, r: Rules): string
    requires i < |children|
  {
    if children[i].trajectory.id.Some? then children[i].trajectory.id.value else r.subagent(i)
  }

  ghost predicate HoldsAll(warnings: seq<string>, children: seq<Conversion>, r: Rules) {
    forall i | 0 <= i < |children| :: Holds(warnings, NameOf(children, i, r), children[i].warnings)
  }

  lemma {:induction false} AdoptAllHolds(warnings: seq<string>, children: seq<Conversion>, r: Rules)
    ensures warnings <= AdoptAll(warnings, children, r) && HoldsAll(AdoptAll(warnings, children, r), children, r)
  {
    if children != [] {
      var n := |children| - 1;
      var init := children[..n];
      AdoptAllHolds(warnings, init, r);
      var before := AdoptAll(warnings, init, r);
      AdoptHolds(before, NameOf(children, n, r), children[n].warnings);
      forall i | 0 <= i < n
        ensures Holds(AdoptAll(warnings, children, r), NameOf(children, i, r), children[i].warnings)
      {
        assert NameOf(children, i, r) == NameOf(init, i, r) && Holds(before, NameOf(init, i, r), init[i].warnings);
      }
    }
  }

  lemma {:induction false} AdoptsNothing(warnings: seq<string>, children: seq<Conversion>, r: Rules)
    requires HoldsAll(warnings, children, r)
    ensures AdoptAll(warnings, children, r) == warnings
  {
    if children != [] {
      var n := |children| - 1;
      var init := children[..n];
      forall i | 0 <= i < n
        ensures Holds(warnings, NameOf(init, i, r), init[i].warnings)
      {
        assert NameOf(children, i, r) == NameOf(init, i, r) && Holds(warnings, NameOf(children, i, r), children[i].warnings);
      }
      AdoptsNothing(warnings, init, r);
      AdoptHolds(warnings, NameOf(children, n, r), children[n].warnings);
    }
  }

  lemma {:induction false} WarningsGrow(results: seq<Result>, calls: set<string>, warnings: seq<string>, step: nat,
        n: nat, r: Rules)
    requires n <= |results|
    ensures warnings <= ResultWarnings(results, calls, warnings, step, n, r)
  {
    if n > 0 {
      WarningsGrow(results, calls, warnings, step, n - 1, r);
    }
  }

  lemma {:induction false} PassWarningsGrow(steps: seq<Step>, metas: seq<StepMeta>, warnings: seq<string>,
        portable: bool, r: Rules)
    ensures warnings <= Passes(steps, metas, warnings, portable, r).warnings
  {
    if steps != [] {
      var n := |steps| - 1;
      var p := Passes(steps[..n], metas, warnings, portable, r);
      PassWarningsGrow(steps[..n], metas, warnings, portable, r);
      var m := MetaFor(metas, p.metas, steps[n], n);
      var projected := if m.Some? then ProjectStep(steps[n], m.value, portable, r) else steps[n];
      if projected.observation.Some? {
        WarningsGrow(projected.observation.value, CallIds(projected.calls), p.warnings, n, |projected.observation.value|, r);
      }
    }
  }

  ghost predicate LeftBy(f: Conversion, metas: seq<StepMeta>, r: Rules) {
    Left(f.trajectory.steps, f.metas, metas, !r.orderOnly(f.semantics), r)
  }

  /** What a finalized conversion is: numbered steps that carry their metadata, and children that are final. */
  ghost predicate Final(f: Conversion, r: Rules) {
    && Valid(f.trajectory) && f.trajectory.totals == Some(Aggregate(f.trajectory.steps, r)) &&
          IdOf(f.trajectory) == f.trajectory.id
    && (f.children != [] ==> f.trajectory.children == Trajectories(f.children))
    && HoldsAll(f.warnings, f.children, r)
    && (exists metas :: LeftBy(f, metas, r))
    && RootExtra(f.trajectory.extra, f.semantics, Stamped(f.metas, |f.trajectory.steps|, !r.orderOnly(f.semantics))) == f.trajectory.extra
  }

  lemma HoldsMore(warnings: seq<string>, more: seq<string>, children: seq<Conversion>, r: Rules)
    requires HoldsAll(warnings, children, r) && warnings <= more
    ensures HoldsAll(more, children, r)
  {
  }

  lemma NumberedSteps(c: Conversion, children: seq<Conversion>, r: Rules)
    requires Valid(Assemble(c, children, r).trajectory)
    ensures forall i | 0 <= i < |c.trajectory.steps| :: c.trajectory.steps[i].id == i + 1
  {
    var t := Assemble(c, children, r).trajectory;
    forall i | 0 <= i < |c.trajectory.steps|
      ensures c.trajectory.steps[i].id == i + 1
    {
      assert ValidStep(t.steps[i], i + 1, ChildIds(t.children));
      PassesValid(c.trajectory.steps, c.metas, AdoptAll(c.warnings, children, r), !r.orderOnly(c.semantics), r, i, ChildIds(t.children));
    }
  }

  lemma AssembledWarnings(c: Conversion, children: seq<Conversion>, r: Rules)
    ensures HoldsAll(Assemble(c, children, r).warnings, children, r)
  {
    var warnings, portable := AdoptAll(c.warnings, children, r), !r.orderOnly(c.semantics);
    AdoptAllHolds(c.warnings, children, r);
    PassWarningsGrow(c.trajectory.steps, c.metas, warnings, portable, r);
    HoldsMore(warnings, Passes(c.trajectory.steps, c.metas, warnings, portable, r).warnings, children, r);
  }

  lemma AssembledLeft(c: Conversion, children: seq<Conversion>, r: Rules)
    requires forall i | 0 <= i < |c.trajectory.steps| :: c.trajectory.steps[i].id == i + 1
    ensures var f := Assemble(c, children, r);
      && LeftBy(f, c.metas, r)
      && RootExtra(f.trajectory.extra, f.semantics, Stamped(f.metas, |f.trajectory.steps|, !r.orderOnly(f.semantics))) == f.trajectory.extra
  {
    var warnings, portable := AdoptAll(c.warnings, children, r), !r.orderOnly(c.semantics);
    var p := Passes(c.trajectory.steps, c.metas, warnings, portable, r);
    PassesLeave(c.trajectory.steps, c.metas, warnings, portable, r);
    PassesStamp(c.trajectory.steps, c.metas, warnings, portable, r);
    SameStamped(p.metas, c.metas, |p.steps|, portable);
    RootExtraTwice(c.trajectory.extra, c.semantics, p.stamped);
  }

  lemma RootExtraTwice(extra: Extra, semantics: string, stamped: bool)
    ensures RootExtra(RootExtra(extra, semantics, stamped), semantics, stamped) == RootExtra(extra, semantics, stamped)
  {
  }

  lemma AssembledIsFinal(c: Conversion, children: seq<Conversion>, r: Rules)
    requires Valid(Assemble(c, children, r).trajectory)
    ensures Final(Assemble(c, children, r), r)
  {
    NumberedSteps(c, children, r);
    AssembledWarnings(c, children, r);
    AssembledLeft(c, children, r);
    assert LeftBy(Assemble(c, children, r), c.metas, r);
  }

  /* ------------------------------------------------------------------ the theorem */

  /** The same trajectory and warnings, at every depth. */
  ghost predicate SameOutcome(f: Conversion, g: Conversion)
    decreases f
  {
    && g.trajectory == f.trajectory && g.warnings == f.warnings && |g.children| == |f.children|
    && forall i | 0 <= i < |f.children| :: SameOutcome(f.children[i], g.children[i])
  }

  /** At every depth each result already has the execution facts of the tool that it names. */
  ghost predicate SettledAll(f: Conversion)
    decreases f
  {
    AllSettled(f.trajectory.steps, f.metas) && forall c | c in f.children :: SettledAll(c)
  }

  ghost predicate FinalAll(f: Conversion, r: Rules)
    decreases f
  {
    Final(f, r) && forall c | c in f.children :: FinalAll(c, r)
  }

  lemma FinalizedParts(c: Conversion, r: Rules) returns (children: seq<Conversion>)
    requires Finalized(c, r).Some?
    ensures AreFinalized(children, c.children, r) && Finalized(c, r) == Some(Assemble(c, children, r))
    ensures Valid(Assemble(c, children, r).trajectory)
  {
    children := FinalizedChildren(c, r);
  }

  lemma FinalAllOf(f: Conversion, r: Rules)
    requires Final(f, r) && forall i | 0 <= i < |f.children| :: FinalAll(f.children[i], r)
    ensures FinalAll(f, r)
  {
  }

  lemma {:induction false} FinalizedIsFinal(c: Conversion, r: Rules)
    requires Finalized(c, r).Some?
    ensures FinalAll(Finalized(c, r).value, r)
    decreases c
  {
    var children := FinalizedParts(c, r);
    AssembledIsFinal(c, children, r);
    forall i | 0 <= i < |children|
      ensures FinalAll(children[i], r)
    {
      assert Finalized(c.children[i], r) == Some(children[i]);
      FinalizedIsFinal(c.children[i], r);
    }
    FinalAllOf(Assemble(c, children, r), r);
  }

  /** The same conversion under another session. */
  function Under(f: Conversion, session: Option<string>): Conversion { f.(trajectory := f.trajectory.(sessionId := session)) }

  /** The second assembly, when the children came out the same: nothing but the session and the id changes,
      exactly when all steps are settled. */
  lemma AssembleAgain(f: Conversion, session: Option<string>, children: seq<Conversion>, r: Rules)
    requires Final(f, r) && |children| == |f.children|
    requires forall i | 0 <= i < |children| :: children[i].trajectory == f.children[i].trajectory && children[i].warnings == f.children[i].warnings
    ensures var u := Under(f, session).trajectory;
      var g := Assemble(Under(f, session), children, r);
      && g.warnings == f.warnings && g.children == children
      && (g.trajectory == u.(id := IdOf(u)) <==> AllSettled(f.trajectory.steps, f.metas))
  {
    var portable := !r.orderOnly(f.semantics);
    var metas :| LeftBy(f, metas, r);
    assert LeftBy(f, metas, r);
    SameHolds(f, children, r);
    AdoptsNothing(f.warnings, children, r);
    SecondPasses(f.trajectory.steps, f.metas, metas, f.warnings, portable, r);
    PassesStamp(f.trajectory.steps, f.metas, f.warnings, portable, r);
    SameTrajectories(children, f.children);
  }

  lemma SameHolds(f: Conversion, children: seq<Conversion>, r: Rules)
    requires HoldsAll(f.warnings, f.children, r) && |children| == |f.children|
    requires forall i | 0 <= i < |children| :: children[i].trajectory == f.children[i].trajectory && children[i].warnings == f.children[i].warnings
    ensures HoldsAll(f.warnings, children, r)
  {
  }

  lemma SameTrajectories(a: seq<Conversion>, b: seq<Conversion>)
    requires |a| == |b| && forall i | 0 <= i < |a| :: a[i].trajectory == b[i].trajectory
    ensures Trajectories(a) == Trajectories(b)
  {
  }

  /** The conversion under a session, with the id that follows from it. */
  function Renamed(f: Conversion, session: Option<string>): Conversion {
    var u := Under(f, session);
    u.(trajectory := u.trajectory.(id := IdOf(u.trajectory)))
  }

  /** Finalizing again under a session changes the session and the id, and nothing else at any depth. */
  ghost predicate RepeatsUnder(f: Conversion, session: Option<string>, r: Rules) {
    var g := Finalized(Under(f, session), r);
    g.Some? && SameOutcome(Renamed(f, session), g.value)
  }

  ghost predicate Repeats(f: Conversion, r: Rules) { Finalized(f, r).Some? && SameOutcome(f, Finalized(f, r).value) }

  lemma RenamedIsValid(t: Trajectory, session: Option<string>, id: Option<string>)
    requires Valid(t)
    ensures Valid(t.(sessionId := session, id := id))
  {
  }

  lemma SettledRepeats(f: Conversion, session: Option<string>, r: Rules)
    requires FinalAll(f, r) && SettledAll(f) && forall c | c in f.children :: Repeats(c, r) <==> SettledAll(c)
    ensures RepeatsUnder(f, session, r)
  {
    var u := Under(f, session);
    var children := FinalizedChildren(u, r);
    SettledChildren(f, children, r);
    AssembleAgain(f, session, children, r);
    RenamedIsValid(f.trajectory, session, IdOf(u.trajectory));
  }

  lemma RepeatedChildren(f: Conversion, session: Option<string>, r: Rules) returns (children: seq<Conversion>)
    requires RepeatsUnder(f, session, r)
    ensures AreFinalized(children, f.children, r) &&
          Finalized(Under(f, session), r) == Some(Assemble(Under(f, session), children, r))
    ensures forall i | 0 <= i < |children| :: SameOutcome(f.children[i], children[i])
  {
    children := FinalizedChildren(Under(f, session), r);
  }

  lemma ChildrenRepeat(f: Conversion, children: seq<Conversion>, r: Rules)
    requires AreFinalized(children, f.children, r) && forall i | 0 <= i < |children| :: SameOutcome(f.children[i], children[i])
    ensures forall c | c in f.children :: Repeats(c, r)
  {
  }

  lemma RepeatsSettled(f: Conversion, session: Option<string>, r: Rules)
    requires FinalAll(f, r) && RepeatsUnder(f, session, r) && forall c | c in f.children :: Repeats(c, r) <==> SettledAll(c)
    ensures SettledAll(f)
  {
    var children := RepeatedChildren(f, session, r);
    ChildrenRepeat(f, children, r);
    AssembleAgain(f, session, children, r);
  }

  lemma OwnSession(f: Conversion, r: Rules)
    requires Final(f, r)
    ensures RepeatsUnder(f, f.trajectory.sessionId, r) <==> Repeats(f, r)
  {
    assert Under(f, f.trajectory.sessionId) == f && Renamed(f, f.trajectory.sessionId) == f;
  }

  /** A final conversion is finalized to itself exactly when it is settled, at every depth. */
  lemma {:induction false} FinalAgainIsSame(f: Conversion, r: Rules)
    requires FinalAll(f, r)
    ensures Repeats(f, r) <==> SettledAll(f)
    decreases f, 1
  {
    FinalUnderSession(f, f.trajectory.sessionId, r);
    OwnSession(f, r);
  }

  lemma FinalUnderSession(f: Conversion, session: Option<string>, r: Rules)
    requires FinalAll(f, r)
    ensures RepeatsUnder(f, session, r) <==> SettledAll(f)
    decreases f, 0
  {
    forall c | c in f.children
      ensures Repeats(c, r) <==> SettledAll(c)
    {
      FinalAgainIsSame(c, r);
    }
    if SettledAll(f) {
      SettledRepeats(f, session, r);
    }
    if RepeatsUnder(f, session, r) {
      RepeatsSettled(f, session, r);
    }
  }

  lemma SettledChildren(f: Conversion, children: seq<Conversion>, r: Rules)
    requires (forall i | 0 <= i < |f.children| :: Finalized(f.children[i], r).Some?) ==> AreFinalized(children, f.children, r)
    requires SettledAll(f)
    requires forall c | c in f.children :: Repeats(c, r) <==> SettledAll(c)
    ensures AreFinalized(children, f.children, r)
    ensures forall i | 0 <= i < |children| :: SameOutcome(f.children[i], children[i])
  {
    forall i | 0 <= i < |f.children|
      ensures Repeats(f.children[i], r)
    {
      assert f.children[i] in f.children;
    }
  }

  ghost predicate StepsSettle(steps: seq<Step>, metas: seq<StepMeta>, portable: bool, r: Rules) {
    forall i | 0 <= i < |steps| :: Settles(steps, metas, i, portable, r)
  }

  /** At every depth each result is about to have the execution facts of the tool that its metadata will name. */
  ghost predicate SettlesAll(c: Conversion, r: Rules)
    decreases c
  {
    StepsSettle(c.trajectory.steps, c.metas, !r.orderOnly(c.semantics), r) && forall x | x in c.children :: SettlesAll(x, r)
  }

  lemma PassSettles(steps: seq<Step>, metas: seq<StepMeta>, warnings: seq<string>, portable: bool, r: Rules)
    requires forall i | 0 <= i < |steps| :: steps[i].id == i + 1
    ensures var p := Passes(steps, metas, warnings, portable, r);
      AllSettled(p.steps, p.metas) <==> StepsSettle(steps, metas, portable, r)
  {
    var p := Passes(steps, metas, warnings, portable, r);
    PassesTrace(steps, metas, warnings, portable, r);
    forall i | 0 <= i < |steps|
      ensures StepSettled(p.steps[i], p.metas, i) <==> Settles(steps, metas, i, portable, r)
    {
      SettledLater(p, steps, metas, i, portable, r);
    }
  }

  lemma AssembledSettled(c: Conversion, children: seq<Conversion>, r: Rules)
    requires Valid(Assemble(c, children, r).trajectory)
    ensures AllSettled(Assemble(c, children, r).trajectory.steps, Assemble(c, children, r).metas) <==>
      StepsSettle(c.trajectory.steps, c.metas, !r.orderOnly(c.semantics), r)
  {
    NumberedSteps(c, children, r);
    PassSettles(c.trajectory.steps, c.metas, AdoptAll(c.warnings, children, r), !r.orderOnly(c.semantics), r);
  }

  lemma SameForChildren(f: Conversion, c: Conversion, r: Rules)
    requires |f.children| == |c.children| && forall i | 0 <= i < |c.children| :: SettledAll(f.children[i]) <==>
          SettlesAll(c.children[i], r)
    ensures (forall x | x in f.children :: SettledAll(x)) <==> (forall x | x in c.children :: SettlesAll(x, r))
  {
    if forall x | x in f.children :: SettledAll(x) {
      forall x | x in c.children
        ensures SettlesAll(x, r)
      {
        var i :| 0 <= i < |c.children| && c.children[i] == x;
        assert f.children[i] in f.children;
      }
    }
    if forall x | x in c.children :: SettlesAll(x, r) {
      forall x | x in f.children
        ensures SettledAll(x)
      {
        var i :| 0 <= i < |f.children| && f.children[i] == x;
        assert c.children[i] in c.children;
      }
    }
  }

  /** A conversion comes out settled exactly when it was about to settle, at every depth. */
  lemma {:induction false} SettledIffSettles(c: Conversion, r: Rules)
    requires Finalized(c, r).Some?
    ensures SettledAll(Finalized(c, r).value) <==> SettlesAll(c, r)
    decreases c
  {
    var children := FinalizedParts(c, r);
    AssembledSettled(c, children, r);
    forall i | 0 <= i < |children|
      ensures SettledAll(children[i]) <==> SettlesAll(c.children[i], r)
    {
      assert Finalized(c.children[i], r) == Some(children[i]);
      SettledIffSettles(c.children[i], r);
    }
    PartsSettle(c, children, r);
  }

  lemma PartsSettle(c: Conversion, children: seq<Conversion>, r: Rules)
    requires |children| == |c.children| && forall i | 0 <= i < |c.children| :: SettledAll(children[i]) <==>
          SettlesAll(c.children[i], r)
    requires var f := Assemble(c, children, r);
      AllSettled(f.trajectory.steps, f.metas) <==> StepsSettle(c.trajectory.steps, c.metas, !r.orderOnly(c.semantics), r)
    ensures SettledAll(Assemble(c, children, r)) <==> SettlesAll(c, r)
  {
    SameForChildren(Assemble(c, children, r), c, r);
  }

  /** Finalizing twice gives what finalizing once gives, trajectory and warnings at every depth, exactly when
      the conversion settles. */
  lemma FinalizationTwice(c: Conversion, r: Rules)
    requires Finalized(c, r).Some?
    ensures Repeats(Finalized(c, r).value, r) <==> SettlesAll(c, r)
  {
    FinalizedIsFinal(c, r);
    FinalAgainIsSame(Finalized(c, r).value, r);
    SettledIffSettles(c, r);
  }

  /** A session that becomes known late: finalizing again changes the session and the id and nothing else,
      exactly when the conversion settles. */
  lemma LateSession(c: Conversion, session: string, r: Rules)
    requires Finalized(c, r).Some?
    ensures RepeatsUnder(Finalized(c, r).value, Some(session), r) <==> SettlesAll(c, r)
  {
    FinalizedIsFinal(c, r);
    FinalUnderSession(Finalized(c, r).value, Some(session), r);
    SettledIffSettles(c, r);
  }

  /* ------------------------------------------------------------------ conversions that settle */

  /** Metadata that name for each result the id that the result has, and no tool without an id. */
  predicate Agrees(s: Step, m: StepMeta) {
    && |m.observations| == |Results(s)| && Aligned(s, m)
    && forall i | 0 <= i < |m.tools| :: m.tools[i].id != ""
  }

  /** As an adapter makes it: one metadata for each step, in order, that agrees with it. */
  ghost predicate AgreesAll(c: Conversion)
    decreases c
  {
    && |c.metas| == |c.trajectory.steps|
    && (forall i | 0 <= i < |c.metas| :: c.metas[i].id == i + 1 && Agrees(c.trajectory.steps[i], c.metas[i]))
    && forall x | x in c.children :: AgreesAll(x)
  }

  lemma {:induction false} NoToolWithoutId(tools: seq<ToolMeta>)
    requires forall i | 0 <= i < |tools| :: tools[i].id != ""
    ensures ToolOf(tools, "").None?
  {
    if tools != [] {
      NoToolWithoutId(tools[..|tools| - 1]);
    }
  }

  lemma {:induction false} OwnIndex(metas: seq<StepMeta>, n: nat, i: nat)
    requires i < n <= |metas| && forall j | 0 <= j < |metas| :: metas[j].id == j + 1
    ensures MetaIndex(metas[..n], i + 1) == Some(i)
  {
    if i < n - 1 {
      assert metas[..n][..n - 1] == metas[..n - 1];
      OwnIndex(metas, n - 1, i);
    }
  }

  lemma AgreeingSettles(steps: seq<Step>, metas: seq<StepMeta>, i: nat, portable: bool, r: Rules)
    requires i < |steps| == |metas| && forall j | 0 <= j < |metas| :: metas[j].id == j + 1 && Agrees(steps[j], metas[j])
    ensures Settles(steps, metas, i, portable, r)
  {
    OwnIndex(metas, |metas|, i);
    assert metas[..|metas|] == metas;
    var s, m := steps[i], metas[i];
    forall k | 0 <= k < |Results(s)|
      ensures Has(Results(s)[k].extra + ResultFacts(m, k, portable, r), ExecutionFacts(ToolOf(m.tools, OrEmpty(NamedThen(steps, metas, i, k)))))
    {
      if Unmatched(Results(s)[k], CallIds(s.calls)) {
        NoToolWithoutId(m.tools);
        assert ExecutionFacts(ToolOf(m.tools, "")) == map[];
      } else {
        FactKeys(m.observations[k], ToolOf(m.tools, OrEmpty(m.observations[k].source)), portable, r);
        HasParts(Results(s)[k].extra, OwnFacts(m.observations[k], portable, r), Execution(m, k));
      }
    }
  }

  /** What an adapter makes settles at every depth, so that finalizing it is idempotent. */
  lemma {:induction false} AgreeingSettlesAll(c: Conversion, r: Rules)
    requires AgreesAll(c)
    ensures SettlesAll(c, r)
    decreases c
  {
    var steps, portable := c.trajectory.steps, !r.orderOnly(c.semantics);
    forall i | 0 <= i < |steps|
      ensures Settles(steps, c.metas, i, portable, r)
    {
      AgreeingSettles(steps, c.metas, i, portable, r);
    }
    forall x | x in c.children
      ensures SettlesAll(x, r)
    {
      AgreeingSettlesAll(x, r);
    }
  }

  /* ------------------------------------------------------------------ where it does not hold */

  function OneStep(calls: seq<ToolCall>, result: Option<string>, tools: seq<ToolMeta>, named: string): Conversion {
    Conversion(
      Trajectory(None, None, AgentInfo("agent", "1", None),
                 [Step(1, Agent, Str(""), None, None, None, calls, Some([Result(result, None, [], map[])]), None, None, map[])],
                 [], None, map[]),
      [StepMeta(1, tools, [ObservationMeta(Some(named), None, None, false, false)], false, None, None, None, false)],
      [], "", [])
  }

  function Tool(id: string, execution: Option<int>): ToolMeta { ToolMeta(id, None, None, execution, None, false) }

  function Call(id: string): ToolCall { ToolCall(id, "tool", map[], map[]) }

  /** A tool without an id and a result without its call: once the id of the result is set aside, its metadata
      name the tool. */
  const STRAY := OneStep([Call("")], Some("x"), [Tool("", Some(5))], "x")

  /** Metadata that name another call than the result has: after the first time they name that of the result. */
  const MISNAMED := OneStep([Call("a"), Call("b")], Some("a"), [Tool("a", Some(5)), Tool("b", None)], "b")

  lemma OneStepIsFinalized(calls: seq<ToolCall>, result: Option<string>, tools: seq<ToolMeta>, named: string, r: Rules)
    requires Lawful(r) && DistinctCalls(calls)
    ensures Finalized(OneStep(calls, result, tools, named), r).Some?
  {
    var c := OneStep(calls, result, tools, named);
    assert RepairableStep(c.trajectory.steps[0], 1, Embedded(c));
    FinalizationSucceeds(c, r);
  }

  lemma LastTool(tools: seq<ToolMeta>, t: ToolMeta, id: string)
    ensures ToolOf(tools + [t], id) == if t.id == id then Some(t) else ToolOf(tools, id)
  {
    assert (tools + [t])[..|tools|] == tools;
  }

  /** The id that the result of such a step has after the repair. */
  function After(calls: seq<ToolCall>, result: Option<string>): Option<string> {
    if result.Some? && result.value in CallIds(calls) then result else None
  }

  lemma LateFactsDoNotSettle(calls: seq<ToolCall>, result: Option<string>, tools: seq<ToolMeta>, named: string,
        portable: bool, r: Rules)
    requires ExecutionFacts(ToolOf(tools, named)) == map[] &&
          ExecutionFacts(ToolOf(tools, OrEmpty(After(calls, result)))) != map[]
    ensures var c := OneStep(calls, result, tools, named);
      !Settles(c.trajectory.steps, c.metas, 0, portable, r)
  {
    var c := OneStep(calls, result, tools, named);
    var steps, metas := c.trajectory.steps, c.metas;
    assert MetaIndex(metas, 1) == Some(0) && NamedThen(steps, metas, 0, 0) == After(calls, result);
    var facts, own := ExecutionFacts(ToolOf(tools, OrEmpty(After(calls, result)))), OwnFacts(metas[0].observations[0], portable, r);
    assert ResultFacts(metas[0], 0, portable, r) == own && "execution_duration_ms" in facts && "execution_duration_ms" !in own;
    assert "execution_duration_ms" in map[] + own + facts;
    assert !Has(map[] + own, facts);
  }

  /** A result gets execution facts for the first time when the tool that was named has none. */
  lemma LateFactsDoNotRepeat(calls: seq<ToolCall>, result: Option<string>, tools: seq<ToolMeta>, named: string, r: Rules)
    requires Lawful(r) && DistinctCalls(calls)
    requires ExecutionFacts(ToolOf(tools, named)) == map[] &&
          ExecutionFacts(ToolOf(tools, OrEmpty(After(calls, result)))) != map[]
    ensures var c := OneStep(calls, result, tools, named);
      Finalized(c, r).Some? && !Repeats(Finalized(c, r).value, r)
  {
    var c := OneStep(calls, result, tools, named);
    OneStepIsFinalized(calls, result, tools, named, r);
    FinalizationTwice(c, r);
    LateFactsDoNotSettle(calls, result, tools, named, !r.orderOnly(c.semantics), r);
  }

  lemma StrayDoesNotRepeat(r: Rules)
    requires Lawful(r)
    ensures Finalized(STRAY, r).Some? && !Repeats(Finalized(STRAY, r).value, r)
  {
    var tool := Tool("", Some(5));
    LastTool([], tool, "x");
    LastTool([], tool, "");
    assert [] + [tool] == [tool] && CallIds([Call("")]) == {""};
    assert "execution_duration_ms" in ExecutionFacts(Some(tool));
    LateFactsDoNotRepeat([Call("")], Some("x"), [tool], "x", r);
  }

  lemma MisnamedDoesNotRepeat(r: Rules)
    requires Lawful(r)
    ensures Finalized(MISNAMED, r).Some? && !Repeats(Finalized(MISNAMED, r).value, r)
  {
    var timed, other := Tool("a", Some(5)), Tool("b", None);
    LastTool([timed], other, "a");
    LastTool([timed], other, "b");
    LastTool([], timed, "a");
    assert [] + [timed] == [timed] && [timed] + [other] == [timed, other];
    assert Call("a") in [Call("a"), Call("b")] && "execution_duration_ms" in ExecutionFacts(Some(timed));
    LateFactsDoNotRepeat([Call("a"), Call("b")], Some("a"), [timed, other], "b", r);
  }
}
