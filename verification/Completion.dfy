/** Validation against the baseline, and the policy that decides what follows a review. */
module Completion {
  import opened Bytes

  datatype CheckStatus = Pass | Fail | Warn | Skipped | Stopped | NotVerified

  /** baseline is the status the same check had before the first write, when it was run then. */
  datatype Check = Check(name: Text, required: bool, status: CheckStatus, baseline: Option<CheckStatus>)

  datatype Validation = Validation(checks: seq<Check>, blockingFailures: seq<Text>, warnings: seq<Text>,
                                   unverified: seq<Text>, compared: bool)

  datatype Verdict = Passed | Rejected | Insufficient | OtherVerdict
  datatype ReviewArtifact = ReviewArtifact(verdict: Verdict, blockingFinding: bool)
  datatype Outcome = DoComplete | DoRepair | DoReplan | DoBlock | DoExplore | DoIntegrate

  /** A failure the run is answerable for: it was not there at baseline. */
  predicate Regresses(c: Check) {
    c.status == Fail && (match c.baseline case Some(b) => b != Fail case None => c.required)
  }

  /** A required check that was stopped, or failed and not already at baseline. */
  predicate Bars(c: Check) {
    c.required && (c.status == Stopped || (c.status == Fail && c.baseline != Some(Fail)))
  }

  ghost function Names(checks: seq<Check>, p: Check -> bool): seq<Text> {
    if checks == [] then []
    else Names(checks[..|checks| - 1], p) + if p(checks[|checks| - 1]) then [checks[|checks| - 1].name] else []
  }

  predicate Warns(c: Check) { c.status == Warn }

  predicate Unverified(c: Check) { c.status == NotVerified || c.status == Skipped }

  ghost predicate Produced(v: Validation) {
    && v.blockingFailures == Names(v.checks, Regresses)
    && v.warnings == Names(v.checks, Warns)
    && v.unverified == Names(v.checks, Unverified)
    && (v.compared <==> exists i :: 0 <= i < |v.checks| && v.checks[i].baseline.Some?)
  }

  lemma NamesAppend(checks: seq<Check>, c: Check, p: Check -> bool)
    ensures Names(checks + [c], p) == if p(c) then Names(checks, p) + [c.name] else Names(checks, p)
  {
    assert (checks + [c])[..|checks|] == checks;
  }

  lemma ComparedAppend(checks: seq<Check>, c: Check)
    ensures (exists i :: 0 <= i < |checks + [c]| && (checks + [c])[i].baseline.Some?) <==>
            c.baseline.Some? || exists i :: 0 <= i < |checks| && checks[i].baseline.Some?
  {
    var next := checks + [c];
    assert next[|checks|] == c;
    if i :| 0 <= i < |checks| && checks[i].baseline.Some? { assert next[i].baseline.Some?; }
  }

  /** A check as it comes back from its run. */
  function Ran(c: Check, status: CheckStatus, baseline: map<Text, CheckStatus>): Check {
    c.(status := status, baseline := if c.name in baseline then Some(baseline[c.name]) else None)
  }

  ghost predicate AllRan(checks: seq<Check>, plan: seq<Check>, exec: nat -> CheckStatus, baseline: map<Text, CheckStatus>) {
    |checks| <= |plan| && forall i :: 0 <= i < |checks| ==> checks[i] == Ran(plan[i], exec(i), baseline)
  }

  /** Runner.Run; exec is the status each check comes back with. */
  method RunChecks(plan: seq<Check>, exec: nat -> CheckStatus, baseline: map<Text, CheckStatus>) returns (art: Validation)
    ensures |art.checks| == |plan| && AllRan(art.checks, plan, exec, baseline) && Produced(art)
    ensures forall i :: 0 <= i < |plan| ==>
              && art.checks[i].name == plan[i].name && art.checks[i].required == plan[i].required && art.checks[i].status == exec(i)
              && (plan[i].name in baseline ==> art.checks[i].baseline == Some(baseline[plan[i].name]))
              && (plan[i].name !in baseline ==> art.checks[i].baseline == None)
  {
    art := Validation([], [], [], [], false);
    for i := 0 to |plan|
      invariant |art.checks| == i && AllRan(art.checks, plan, exec, baseline) && Produced(art)
    {
      art := AddCheck(art, Ran(plan[i], exec(i), baseline));
    }
  }

  /** What Runner.Run records about one check. */
  method AddCheck(art: Validation, c: Check) returns (r: Validation)
    requires Produced(art)
    ensures Produced(r) && r.checks == art.checks + [c]
  {
    NamesAppend(art.checks, c, Regresses);
    NamesAppend(art.checks, c, Warns);
    NamesAppend(art.checks, c, Unverified);
    ComparedAppend(art.checks, c);
    r := art.(checks := art.checks + [c]);
    if c.baseline.Some? {
      r := r.(compared := true);
      if c.baseline != Some(Fail) && c.status == Fail { r := r.(blockingFailures := r.blockingFailures + [c.name]); }
    } else if c.required && c.status == Fail {
      r := r.(blockingFailures := r.blockingFailures + [c.name]);
    }
    if c.status == Warn { r := r.(warnings := r.warnings + [c.name]); }
    if c.status == NotVerified || c.status == Skipped { r := r.(unverified := r.unverified + [c.name]); }
  }

  lemma {:induction false} NamesHold(checks: seq<Check>, p: Check -> bool, n: Text)
    ensures n in Names(checks, p) <==> exists c :: c in checks && p(c) && c.name == n
  {
    if checks != [] {
      var m := |checks| - 1;
      NamesHold(checks[..m], p, n);
      assert checks == checks[..m] + [checks[m]];
    }
  }

  /** Which checks the lists of a validation name: failures that are new since the baseline, or required
      when there was none; warnings; and what was skipped or could not be verified. */
  lemma ListedByStatus(v: Validation, n: Text)
    requires Produced(v)
    ensures n in v.blockingFailures <==>
            exists c :: c in v.checks && c.name == n && c.status == Fail && c.baseline != Some(Fail) && (c.baseline.Some? || c.required)
    ensures n in v.warnings <==> exists c :: c in v.checks && c.name == n && c.status == Warn
    ensures n in v.unverified <==> exists c :: c in v.checks && c.name == n && c.status in {NotVerified, Skipped}
  {
    NamesHold(v.checks, Regresses, n);
    NamesHold(v.checks, Warns, n);
    NamesHold(v.checks, Unverified, n);
    assert forall c: Check :: Regresses(c) <==> c.status == Fail && c.baseline != Some(Fail) && (c.baseline.Some? || c.required);
    assert forall c: Check :: Unverified(c) <==> c.status in {NotVerified, Skipped};
  }

  lemma {:induction false} NoNames(checks: seq<Check>, p: Check -> bool)
    ensures Names(checks, p) == [] <==> forall i :: 0 <= i < |checks| ==> !p(checks[i])
  {
    if checks != [] {
      var n := |checks| - 1;
      NoNames(checks[..n], p);
      assert forall i :: 0 <= i < n ==> checks[..n][i] == checks[i];
    }
  }

  function AnyBars(checks: seq<Check>): bool {
    checks != [] && (Bars(checks[0]) || AnyBars(checks[1..]))
  }

  lemma {:induction false} AnyBarsIff(checks: seq<Check>)
    ensures AnyBars(checks) <==> exists i :: 0 <= i < |checks| && Bars(checks[i])
  {
    if checks != [] {
      AnyBarsIff(checks[1..]);
      if exists i :: 0 <= i < |checks| && Bars(checks[i]) {
        var i :| 0 <= i < |checks| && Bars(checks[i]);
        if i > 0 { assert checks[1..][i - 1] == checks[i]; }
      }
    }
  }

  function CompletionPolicy(artifactOnly: bool, val: Option<Validation>, rev: Option<ReviewArtifact>, pending: nat, integrated: bool): Outcome {
    if pending > 0 then DoBlock
    else if val.Some? && AnyBars(val.value.checks) then DoRepair
    else if val.Some? && |val.value.blockingFailures| > 0 then DoRepair
    else if rev.Some? && rev.value.verdict == Rejected then
      if rev.value.blockingFinding then DoRepair else DoReplan
    else if rev.Some? && rev.value.verdict == Insufficient then DoExplore
    else if !artifactOnly && !integrated then DoIntegrate
    else DoComplete
  }

  /** Nothing in the validation stands in the way: no regression, no required check stopped. */
  ghost predicate Clear(v: Validation) {
    forall i :: 0 <= i < |v.checks| ==>
      var c := v.checks[i];
      && (c.status == Fail ==> c.baseline == Some(Fail) || (c.baseline.None? && !c.required))
      && (c.status == Stopped ==> !c.required)
  }

  /** The policy integrates exactly when nothing is pending, the validation is clear and the review neither
      rejects nor asks for more. */
  lemma IntegrateIff(artifactOnly: bool, val: Option<Validation>, rev: Option<ReviewArtifact>, pending: nat)
    requires val.Some? ==> Produced(val.value)
    ensures CompletionPolicy(artifactOnly, val, rev, pending, false) == DoIntegrate <==>
            && !artifactOnly && pending == 0
            && (val.Some? ==> Clear(val.value))
            && (rev.Some? ==> rev.value.verdict !in {Rejected, Insufficient})
  {
    if val.Some? { ClearIff(val.value); }
  }

  lemma ClearIff(v: Validation)
    requires Produced(v)
    ensures Clear(v) <==> !AnyBars(v.checks) && v.blockingFailures == []
  {
    AnyBarsIff(v.checks);
    NoNames(v.checks, Regresses);
    if Clear(v) {
      forall i | 0 <= i < |v.checks| ensures !Bars(v.checks[i]) {
        assert !Regresses(v.checks[i]);
      }
    } else {
      var i :| 0 <= i < |v.checks| && (var c := v.checks[i];
        !((c.status == Fail ==> c.baseline == Some(Fail) || (c.baseline.None? && !c.required)) && (c.status == Stopped ==> !c.required)));
      assert Regresses(v.checks[i]) || Bars(v.checks[i]);
    }
  }

  /** Failures that were there at baseline never decide anything: when they are the only ones, the outcome is
      the one without any validation. */
  lemma BaselineFailuresAreNeutral(artifactOnly: bool, v: Validation, rev: Option<ReviewArtifact>, pending: nat)
    requires Produced(v)
    requires forall i :: 0 <= i < |v.checks| ==>
               (v.checks[i].status == Fail ==> v.checks[i].baseline == Some(Fail)) && v.checks[i].status != Stopped
    ensures CompletionPolicy(artifactOnly, Some(v), rev, pending, false) == CompletionPolicy(artifactOnly, None, rev, pending, false)
  {
    assert Clear(v);
    ClearIff(v);
  }

  /** The validation forces a repair exactly when it is not clear. */
  lemma RepairForcedIff(artifactOnly: bool, v: Validation, rev: Option<ReviewArtifact>)
    requires Produced(v)
    ensures CompletionPolicy(artifactOnly, Some(v), rev, 0, false) == DoRepair <==>
            !Clear(v) || (rev.Some? && rev.value.verdict == Rejected && rev.value.blockingFinding)
  {
    ClearIff(v);
  }

  /** Every outcome of the policy after a review, with nothing integrated yet. */
  lemma PolicyOutcome(artifactOnly: bool, val: Option<Validation>, rev: Option<ReviewArtifact>, pending: nat)
    requires val.Some? ==> Produced(val.value)
    ensures CompletionPolicy(artifactOnly, val, rev, pending, false)
            == if pending > 0 then DoBlock
               else if val.Some? && !Clear(val.value) then DoRepair
               else if rev.Some? && rev.value.verdict == Rejected then if rev.value.blockingFinding then DoRepair else DoReplan
               else if rev.Some? && rev.value.verdict == Insufficient then DoExplore
               else if artifactOnly then DoComplete
               else DoIntegrate
  {
    if val.Some? { ClearIff(val.value); }
  }
}
