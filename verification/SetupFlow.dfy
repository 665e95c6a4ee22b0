/**
 The manifest of setup steps of one connection and the queries over it: preconnect and auth steps up to an
 authentication boundary, configure steps after it, and the virtual verify step slotted in between.
 Eligibility of a step and the set of enabled probes are answers of connector JavaScript; an `Env` holds the
 answers given at one moment, and either answer may be an evaluation error.
 */
module SetupFlow {
  import opened Options

  const VERIFY_ID := "apxy:verify"
  const VERIFY_FAILED_ID := "apxy:verify_failed"
  const AUTH_FAILED_ID := "apxy:auth_failed"

  datatype StepKind = Form | Redirect | Verify

  datatype Step = Step(id: string, kind: StepKind)

  const VERIFY_STEP := Step(VERIFY_ID, Verify)

  datatype Flow = Flow(steps: seq<Step>, hasProbes: bool, authBoundary: int)

  /** A step id missing from `eligible`, or `enabledProbes == None`, is an evaluation error. */
  datatype Env = Env(eligible: map<string, bool>, enabledProbes: Option<seq<string>>)

  /** What a JavaScript predicate answered. */
  datatype Answer = Broken | No | Yes

  datatype Lookup = Fault | NoStep | Found(step: Step)

  /** A user-authored step of the connector definition. */
  datatype StepSpec = StepSpec(id: string, redirect: bool)

  datatype ConnectorDef = ConnectorDef(preconnect: seq<StepSpec>, authSteps: seq<Step>,
                                       configure: seq<StepSpec>, probes: seq<string>)

  predicate Terminal(id: string) {
    id == VERIFY_FAILED_ID || id == AUTH_FAILED_ID
  }

  lemma ReservedIdsDistinct()
    ensures VERIFY_ID != VERIFY_FAILED_ID && VERIFY_ID != AUTH_FAILED_ID && VERIFY_FAILED_ID != AUTH_FAILED_ID
    ensures VERIFY_ID != "" && VERIFY_FAILED_ID != "" && AUTH_FAILED_ID != ""
  {
    assert |VERIFY_ID| == 11 && |VERIFY_FAILED_ID| == 18 && |AUTH_FAILED_ID| == 16;
  }

  predicate Apart(steps: seq<Step>, i: nat, j: nat)
    requires i < |steps| && j < |steps|
  {
    steps[i].id != steps[j].id
  }

  predicate Ordinary(steps: seq<Step>, i: nat)
    requires i < |steps|
  {
    steps[i].id != "" && steps[i].id != VERIFY_ID && !Terminal(steps[i].id) && steps[i].kind != Verify
  }

  /** Step ids are unique and none of them is a reserved pseudo-step. */
  ghost predicate WellFormed(f: Flow) {
    && -1 <= f.authBoundary < |f.steps|
    && (forall i, j :: 0 <= i < j < |f.steps| ==> Apart(f.steps, i, j))
    && (forall i {:trigger Ordinary(f.steps, i)} :: 0 <= i < |f.steps| ==> Ordinary(f.steps, i))
  }

  // ---------------------------------------------------------------------------------------------
  // Building the flow
  // ---------------------------------------------------------------------------------------------

  function SchemaStep(spec: StepSpec): Step {
    Step(spec.id, if spec.redirect then Redirect else Form)
  }

  /** The step has the authored id, and is a redirect exactly when it is authored as one, else a form. */
  predicate ReadFrom(s: Step, spec: StepSpec) {
    s.id == spec.id && (spec.redirect ==> s.kind == Redirect) && (!spec.redirect ==> s.kind == Form)
  }

  function SchemaSteps(specs: seq<StepSpec>): (steps: seq<Step>)
    ensures |steps| == |specs|
    ensures forall i :: 0 <= i < |specs| ==> steps[i] == SchemaStep(specs[i])
  {
    seq(|specs|, i requires 0 <= i < |specs| => SchemaStep(specs[i]))
  }

  method BuildManifestFlow(def: ConnectorDef) returns (f: Flow)
    ensures -1 <= f.authBoundary < |f.steps|
    ensures f.steps[..f.authBoundary + 1] == SchemaSteps(def.preconnect) + def.authSteps
    ensures f.steps[f.authBoundary + 1..] == SchemaSteps(def.configure)
    ensures forall i :: 0 <= i < |def.preconnect| ==> i <= f.authBoundary && ReadFrom(f.steps[i], def.preconnect[i])
    ensures forall i :: 0 <= i < |def.configure| ==>
      0 <= f.authBoundary + 1 + i < |f.steps| && ReadFrom(f.steps[f.authBoundary + 1 + i], def.configure[i])
    ensures f.hasProbes <==> def.probes != []
  {
    var steps: seq<Step> := [];
    for i := 0 to |def.preconnect|
      invariant steps == SchemaSteps(def.preconnect)[..i]
    {
      steps := steps + [SchemaStep(def.preconnect[i])];
    }
    steps := steps + def.authSteps;
    var authBoundary := |steps| - 1;
    ghost var credentials := steps;
    for i := 0 to |def.configure|
      invariant steps == credentials + SchemaSteps(def.configure)[..i]
    {
      steps := steps + [SchemaStep(def.configure[i])];
    }
    f := Flow(steps, |def.probes| > 0, authBoundary);
  }

  // ---------------------------------------------------------------------------------------------
  // Queries
  // ---------------------------------------------------------------------------------------------

  function Eligible(env: Env, id: string): Answer {
    if id !in env.eligible then Broken else if env.eligible[id] then Yes else No
  }

  function VerifyEnabled(f: Flow, env: Env): Answer {
    if !f.hasProbes then No
    else match env.enabledProbes
      case None => Broken
      case Some(probes) => if |probes| > 0 then Yes else No
  }

  function IndexFrom(steps: seq<Step>, id: string, from: nat): (i: nat)
    requires from <= |steps|
    ensures from <= i <= |steps|
    ensures i < |steps| ==> steps[i].id == id
    ensures forall j :: from <= j < i ==> steps[j].id != id
    decreases |steps| - from
  {
    if from == |steps| || steps[from].id == id then from else IndexFrom(steps, id, from + 1)
  }

  /** Position of the step with this id, or the number of steps when there is none. */
  function IndexOf(steps: seq<Step>, id: string): nat {
    IndexFrom(steps, id, 0)
  }

  predicate ContainsStep(f: Flow, id: string) {
    id != "" && ((id == VERIFY_ID && f.hasProbes) || IndexOf(f.steps, id) < |f.steps|)
  }

  /** First position in lo..hi whose eligibility is not a plain "no"; hi + 1 when there is none. */
  function FirstOpen(f: Flow, env: Env, lo: nat, hi: int): (i: int)
    requires hi < |f.steps| && lo <= hi + 1
    ensures lo <= i <= hi + 1
    ensures forall j :: lo <= j < i ==> Eligible(env, f.steps[j].id) == No
    ensures i <= hi ==> Eligible(env, f.steps[i].id) != No
    decreases hi + 1 - lo
  {
    if lo > hi then lo
    else if Eligible(env, f.steps[lo].id) != No then lo
    else FirstOpen(f, env, lo + 1, hi)
  }

  function NextEligibleStep(f: Flow, env: Env, start: int, end: int): Lookup {
    var lo := if start < 0 then 0 else start;
    var hi := if end >= |f.steps| then |f.steps| - 1 else end;
    if lo > hi then NoStep
    else
      var i := FirstOpen(f, env, lo, hi);
      if i > hi then NoStep
      else if Eligible(env, f.steps[i].id) == Broken then Fault
      else Found(f.steps[i])
  }

  function StepById(f: Flow, env: Env, id: string): Lookup {
    if id == "" then NoStep
    else if id == VERIFY_ID && f.hasProbes then
      match VerifyEnabled(f, env)
      case Broken => Fault
      case Yes => Found(VERIFY_STEP)
      case No => NoStep
    else
      var i := IndexOf(f.steps, id);
      if i == |f.steps| then NoStep
      else match Eligible(env, id)
        case Broken => Fault
        case Yes => Found(f.steps[i])
        case No => NoStep
  }

  /** Within the credential phase from position lo on: a credential step, else verify, else past the boundary. */
  function FromCredential(f: Flow, env: Env, lo: nat): Lookup {
    var credential := NextEligibleStep(f, env, lo, f.authBoundary);
    if credential != NoStep then credential
    else match VerifyEnabled(f, env)
      case Broken => Fault
      case Yes => Found(VERIFY_STEP)
      case No => NextEligibleStep(f, env, f.authBoundary + 1, |f.steps| - 1)
  }

  function FirstStep(f: Flow, env: Env): Lookup {
    var last := |f.steps| - 1;
    if f.hasProbes && f.authBoundary >= 0 then
      var credential := NextEligibleStep(f, env, 0, f.authBoundary);
      if credential != NoStep then credential
      else match VerifyEnabled(f, env)
        case Broken => Fault
        case Yes => Found(VERIFY_STEP)
        case No => NextEligibleStep(f, env, 0, last)
    else NextEligibleStep(f, env, 0, last)
  }

  /** The step after position i of the manifest. */
  function NextAfter(f: Flow, env: Env, i: nat): Lookup {
    var last := |f.steps| - 1;
    if f.hasProbes && i <= f.authBoundary then
      FromCredential(f, env, i + 1)
    else NextEligibleStep(f, env, i + 1, last)
  }

  function NextStep(f: Flow, env: Env, id: string): Lookup {
    if id == VERIFY_ID then NextEligibleStep(f, env, f.authBoundary + 1, |f.steps| - 1)
    else
      var i := IndexOf(f.steps, id);
      if i == |f.steps| then NoStep else NextAfter(f, env, i)
  }

  // ---------------------------------------------------------------------------------------------
  // The loops of the source compute these queries
  // ---------------------------------------------------------------------------------------------

  method FindNextEligible(f: Flow, env: Env, start: int, end: int) returns (r: Lookup)
    ensures r == NextEligibleStep(f, env, start, end)
  {
    var lo, hi := start, end;
    if lo < 0 { lo := 0; }
    if hi >= |f.steps| { hi := |f.steps| - 1; }
    if lo > hi { return NoStep; }
    var i := lo;
    while i <= hi
      invariant lo <= i <= hi + 1
      invariant FirstOpen(f, env, lo, hi) == FirstOpen(f, env, i, hi)
    {
      var eligible := Eligible(env, f.steps[i].id);
      if eligible == Broken { return Fault; }
      if eligible == Yes { return Found(f.steps[i]); }
      i := i + 1;
    }
    return NoStep;
  }

  method FindFromCredential(f: Flow, env: Env, lo: nat) returns (r: Lookup)
    ensures r == FromCredential(f, env, lo)
  {
    r := FindNextEligible(f, env, lo, f.authBoundary);
    if r != NoStep { return; }
    var verify := VerifyEnabled(f, env);
    if verify == Broken { return Fault; }
    if verify == Yes { return Found(VERIFY_STEP); }
    r := FindNextEligible(f, env, f.authBoundary + 1, |f.steps| - 1);
  }

  method FindNextStep(f: Flow, env: Env, id: string) returns (r: Lookup)
    ensures r == NextStep(f, env, id)
  {
    if id == VERIFY_ID {
      r := FindNextEligible(f, env, f.authBoundary + 1, |f.steps| - 1);
      return;
    }
    for i := 0 to |f.steps|
      invariant forall j :: 0 <= j < i ==> f.steps[j].id != id
    {
      if f.steps[i].id != id { continue; }
      assert IndexOf(f.steps, id) == i;
      if f.hasProbes && i <= f.authBoundary {
        r := FindFromCredential(f, env, i + 1);
      } else {
        r := FindNextEligible(f, env, i + 1, |f.steps| - 1);
      }
      return;
    }
    return NoStep;
  }

  /** The eligible steps at positions lo..hi, in order. */
  function EligibleSteps(f: Flow, env: Env, lo: nat, hi: int): seq<Step>
    requires hi < |f.steps|
    decreases hi + 1 - lo
  {
    if lo > hi then []
    else if Eligible(env, f.steps[lo].id) == Yes then [f.steps[lo]] + EligibleSteps(f, env, lo + 1, hi)
    else EligibleSteps(f, env, lo + 1, hi)
  }

  /** No eligibility or probe evaluation fails. */
  ghost predicate Settled(f: Flow, env: Env) {
    && (forall i :: 0 <= i < |f.steps| ==> Eligible(env, f.steps[i].id) != Broken)
    && env.enabledProbes.Some?
  }

  method ListSteps(f: Flow, env: Env) returns (r: Option<seq<Step>>)
    ensures r.Some? ==> r.value == EligibleSteps(f, env, 0, |f.steps| - 1)
    ensures r.None? <==> exists i :: 0 <= i < |f.steps| && Eligible(env, f.steps[i].id) == Broken
  {
    var out := [];
    for i := 0 to |f.steps|
      invariant EligibleSteps(f, env, 0, |f.steps| - 1) == out + EligibleSteps(f, env, i, |f.steps| - 1)
      invariant forall j :: 0 <= j < i ==> Eligible(env, f.steps[j].id) != Broken
    {
      var eligible := Eligible(env, f.steps[i].id);
      if eligible == Broken { return None; }
      if eligible == Yes { out := out + [f.steps[i]]; }
    }
    return Some(out);
  }

  // ---------------------------------------------------------------------------------------------
  // Every forward move goes forward, whatever the answers are
  // ---------------------------------------------------------------------------------------------

  /** The rank of a step in the linear order: verify sits right after the authentication boundary. */
  function Slot(f: Flow, id: string): int {
    if id == VERIFY_ID then f.authBoundary + 1
    else
      var i := IndexOf(f.steps, id);
      if i <= f.authBoundary then i else i + 1
  }

  lemma IndexOfUnique(f: Flow, i: nat)
    requires WellFormed(f) && i < |f.steps|
    ensures IndexOf(f.steps, f.steps[i].id) == i && Ordinary(f.steps, i)
  {
    var j := IndexOf(f.steps, f.steps[i].id);
    assert j < i ==> Apart(f.steps, j, i);
  }

  lemma NextEligibleInRange(f: Flow, env: Env, start: int, end: int) returns (i: nat)
    requires WellFormed(f) && NextEligibleStep(f, env, start, end).Found?
    ensures start <= i <= end && i < |f.steps|
    ensures NextEligibleStep(f, env, start, end).step == f.steps[i] && IndexOf(f.steps, f.steps[i].id) == i
    ensures ContainsStep(f, f.steps[i].id) && Slot(f, f.steps[i].id) == if i <= f.authBoundary then i else i + 1
    ensures Eligible(env, f.steps[i].id) == Yes
  {
    var lo := if start < 0 then 0 else start;
    var hi := if end >= |f.steps| then |f.steps| - 1 else end;
    i := FirstOpen(f, env, lo, hi);
    IndexOfUnique(f, i);
  }

  /** What a forward move from slot `from` to this step must satisfy. */
  ghost predicate Forward(f: Flow, env: Env, from: int, next: string) {
    && ContainsStep(f, next)
    && from < Slot(f, next) <= |f.steps|
    && (from <= f.authBoundary && Slot(f, next) > f.authBoundary + 1 ==> VerifyEnabled(f, env) == No)
  }

  lemma VerifyIsForward(f: Flow, env: Env, from: int)
    requires WellFormed(f) && f.hasProbes && from <= f.authBoundary
    ensures Forward(f, env, from, VERIFY_ID)
  {
    ReservedIdsDistinct();
  }

  lemma FromCredentialAdvances(f: Flow, env: Env, lo: nat)
    requires WellFormed(f) && f.hasProbes && lo <= f.authBoundary + 1
    requires FromCredential(f, env, lo).Found?
    ensures Forward(f, env, lo - 1, FromCredential(f, env, lo).step.id)
  {
    if NextEligibleStep(f, env, lo, f.authBoundary).Found? {
      var _ := NextEligibleInRange(f, env, lo, f.authBoundary);
    } else if VerifyEnabled(f, env) == No {
      var _ := NextEligibleInRange(f, env, f.authBoundary + 1, |f.steps| - 1);
    } else {
      VerifyIsForward(f, env, lo - 1);
    }
  }

  lemma NextAfterAdvances(f: Flow, env: Env, i: nat)
    requires WellFormed(f) && i < |f.steps|
    requires NextAfter(f, env, i).Found?
    ensures Forward(f, env, if i <= f.authBoundary then i else i + 1, NextAfter(f, env, i).step.id)
  {
    if f.hasProbes && i <= f.authBoundary {
      FromCredentialAdvances(f, env, i + 1);
    } else {
      var _ := NextEligibleInRange(f, env, i + 1, |f.steps| - 1);
    }
  }

  /** A move out of a manifest step lands strictly later, on a manifest step, and passes verify only when told to. */
  lemma NextAdvances(f: Flow, env: Env, id: string)
    requires WellFormed(f) && ContainsStep(f, id)
    requires NextStep(f, env, id).Found?
    ensures 0 <= Slot(f, id) && Forward(f, env, Slot(f, id), NextStep(f, env, id).step.id)
  {
    if id == VERIFY_ID {
      var _ := NextEligibleInRange(f, env, f.authBoundary + 1, |f.steps| - 1);
    } else {
      NextAfterAdvances(f, env, IndexOf(f.steps, id));
    }
  }

  /** The opening move lands on a manifest step and passes verify only when told to. */
  lemma FirstAdvances(f: Flow, env: Env)
    requires WellFormed(f) && FirstStep(f, env).Found?
    ensures 0 <= Slot(f, FirstStep(f, env).step.id)
    ensures Forward(f, env, if f.authBoundary >= 0 then -1 else 0, FirstStep(f, env).step.id)
  {
    ReservedIdsDistinct();
    var last := |f.steps| - 1;
    if f.hasProbes && f.authBoundary >= 0 {
      if NextEligibleStep(f, env, 0, f.authBoundary).Found? {
        var _ := NextEligibleInRange(f, env, 0, f.authBoundary);
      } else if VerifyEnabled(f, env) == No {
        var _ := NextEligibleInRange(f, env, 0, last);
      }
    } else {
      var _ := NextEligibleInRange(f, env, 0, last);
    }
  }

  /** ids visited by successive forward moves, each made under its own answers. */
  ghost predicate ForwardMoves(f: Flow, ids: seq<string>, envs: seq<Env>) {
    && |ids| == |envs| + 1
    && ContainsStep(f, ids[0])
    && forall k :: 0 <= k < |envs| ==> NextStep(f, envs[k], ids[k]).Found? && NextStep(f, envs[k], ids[k]).step.id == ids[k + 1]
  }

  /** Between restarts at most one visit per manifest step plus one for verify, even if every answer changes. */
  lemma {:induction false} ForwardMovesBounded(f: Flow, ids: seq<string>, envs: seq<Env>)
    requires WellFormed(f) && ForwardMoves(f, ids, envs)
    ensures ContainsStep(f, ids[|envs|]) && |envs| <= Slot(f, ids[|envs|]) <= |f.steps|
    ensures |ids| <= |f.steps| + 1
    decreases |envs|
  {
    if |envs| > 0 {
      var k := |envs| - 1;
      ForwardMovesBounded(f, ids[..|envs|], envs[..k]);
      NextAdvances(f, envs[k], ids[k]);
    }
  }

  // ---------------------------------------------------------------------------------------------
  // Under fixed answers the walk is the simple list
  // ---------------------------------------------------------------------------------------------

  /** Starting from a lookup and taking NextStep to the end visits exactly these steps, with no evaluation error. */
  predicate Visits(f: Flow, env: Env, from: Lookup, list: seq<Step>)
    decreases |list|
  {
    if list == [] then from == NoStep
    else from == Found(list[0]) && Visits(f, env, NextStep(f, env, list[0].id), list[1..])
  }

  lemma VisitsCons(f: Flow, env: Env, s: Step, rest: seq<Step>)
    requires Visits(f, env, NextStep(f, env, s.id), rest)
    ensures Visits(f, env, Found(s), [s] + rest)
  {
    assert ([s] + rest)[1..] == rest;
  }

  lemma VisitsStep(f: Flow, env: Env, i: nat, rest: seq<Step>)
    requires WellFormed(f) && i < |f.steps|
    requires Visits(f, env, NextAfter(f, env, i), rest)
    ensures Visits(f, env, Found(f.steps[i]), [f.steps[i]] + rest)
  {
    IndexOfUnique(f, i);
    VisitsCons(f, env, f.steps[i], rest);
  }

  lemma NextEligibleUnfold(f: Flow, env: Env, lo: nat, hi: int)
    requires hi < |f.steps|
    ensures NextEligibleStep(f, env, lo, hi) ==
              if lo > hi then NoStep
              else match Eligible(env, f.steps[lo].id)
                case Broken => Fault
                case Yes => Found(f.steps[lo])
                case No => NextEligibleStep(f, env, lo + 1, hi)
  {
  }

  lemma {:induction false} EligibleSplit(f: Flow, env: Env, lo: nat, mid: int, hi: int)
    requires lo <= mid + 1 && mid <= hi < |f.steps|
    ensures EligibleSteps(f, env, lo, hi) == EligibleSteps(f, env, lo, mid) + EligibleSteps(f, env, mid + 1, hi)
    decreases mid + 1 - lo
  {
    if lo <= mid {
      EligibleSplit(f, env, lo + 1, mid, hi);
    }
  }

  /** Past the boundary, or without probes, the walk is the eligible steps. */
  lemma {:induction false} WalkUnprobed(f: Flow, env: Env, lo: nat)
    requires WellFormed(f) && Settled(f, env) && lo <= |f.steps|
    requires !f.hasProbes || f.authBoundary < lo
    ensures Visits(f, env, NextEligibleStep(f, env, lo, |f.steps| - 1), EligibleSteps(f, env, lo, |f.steps| - 1))
    decreases |f.steps| - lo
  {
    var last := |f.steps| - 1;
    NextEligibleUnfold(f, env, lo, last);
    if lo <= last {
      WalkUnprobed(f, env, lo + 1);
      if Eligible(env, f.steps[lo].id) == Yes {
        VisitsStep(f, env, lo, EligibleSteps(f, env, lo + 1, last));
      }
    }
  }

  /** The verify step as a list: present exactly when probes are enabled and a credential step precedes it. */
  function VerifySteps(f: Flow, env: Env): seq<Step> {
    if f.authBoundary >= 0 && VerifyEnabled(f, env) == Yes then [VERIFY_STEP] else []
  }

  function RestOfWalk(f: Flow, env: Env): seq<Step>
    requires -1 <= f.authBoundary
  {
    VerifySteps(f, env) + EligibleSteps(f, env, f.authBoundary + 1, |f.steps| - 1)
  }

  lemma WalkVerify(f: Flow, env: Env)
    requires WellFormed(f) && Settled(f, env)
    ensures var configure := EligibleSteps(f, env, f.authBoundary + 1, |f.steps| - 1);
            Visits(f, env, Found(VERIFY_STEP), [VERIFY_STEP] + configure)
  {
    var configure := EligibleSteps(f, env, f.authBoundary + 1, |f.steps| - 1);
    WalkUnprobed(f, env, f.authBoundary + 1);
    VisitsCons(f, env, VERIFY_STEP, configure);
  }

  /** What follows when no credential step from position lo on is eligible. */
  lemma WalkPastCredentials(f: Flow, env: Env, lo: nat)
    requires WellFormed(f) && Settled(f, env) && lo <= f.authBoundary + 1 && f.authBoundary >= 0
    requires NextEligibleStep(f, env, lo, f.authBoundary) == NoStep
    ensures Visits(f, env, FromCredential(f, env, lo), RestOfWalk(f, env))
  {
    if VerifyEnabled(f, env) == Yes {
      WalkVerify(f, env);
    } else {
      WalkUnprobed(f, env, f.authBoundary + 1);
      assert RestOfWalk(f, env) == EligibleSteps(f, env, f.authBoundary + 1, |f.steps| - 1);
    }
  }

  lemma WalkFromCredential(f: Flow, env: Env, lo: nat, rest: seq<Step>)
    requires WellFormed(f) && Settled(f, env) && f.hasProbes && lo <= f.authBoundary
    requires Visits(f, env, FromCredential(f, env, lo + 1), EligibleSteps(f, env, lo + 1, f.authBoundary) + rest)
    ensures Visits(f, env, FromCredential(f, env, lo), EligibleSteps(f, env, lo, f.authBoundary) + rest)
  {
    NextEligibleUnfold(f, env, lo, f.authBoundary);
    if Eligible(env, f.steps[lo].id) == Yes {
      var tail := EligibleSteps(f, env, lo + 1, f.authBoundary);
      VisitsStep(f, env, lo, tail + rest);
      assert [f.steps[lo]] + (tail + rest) == ([f.steps[lo]] + tail) + rest;
    }
  }

  /** With probes: what follows the credential steps before position lo. */
  lemma {:induction false} WalkProbed(f: Flow, env: Env, lo: nat, rest: seq<Step>)
    requires WellFormed(f) && Settled(f, env) && f.hasProbes && lo <= f.authBoundary + 1 && f.authBoundary >= 0
    requires rest == RestOfWalk(f, env)
    ensures Visits(f, env, FromCredential(f, env, lo), EligibleSteps(f, env, lo, f.authBoundary) + rest)
    decreases |f.steps| - lo
  {
    if lo <= f.authBoundary {
      WalkProbed(f, env, lo + 1, rest);
      WalkFromCredential(f, env, lo, rest);
    } else {
      NextEligibleUnfold(f, env, lo, f.authBoundary);
      WalkPastCredentials(f, env, lo);
      assert [] + rest == rest;
    }
  }

  lemma {:induction false} SkippedCredentials(f: Flow, env: Env, lo: nat)
    requires WellFormed(f) && Settled(f, env) && lo <= f.authBoundary + 1
    requires NextEligibleStep(f, env, lo, f.authBoundary) == NoStep
    ensures NextEligibleStep(f, env, lo, |f.steps| - 1) == NextEligibleStep(f, env, f.authBoundary + 1, |f.steps| - 1)
    decreases f.authBoundary + 1 - lo
  {
    if lo <= f.authBoundary {
      NextEligibleUnfold(f, env, lo, f.authBoundary);
      NextEligibleUnfold(f, env, lo, |f.steps| - 1);
      SkippedCredentials(f, env, lo + 1);
    }
  }

  lemma FirstWithProbes(f: Flow, env: Env)
    requires WellFormed(f) && Settled(f, env) && f.hasProbes && f.authBoundary >= 0
    ensures FirstStep(f, env) == FromCredential(f, env, 0)
  {
    if NextEligibleStep(f, env, 0, f.authBoundary) == NoStep {
      SkippedCredentials(f, env, 0);
    }
  }

  lemma FirstWithoutProbes(f: Flow, env: Env)
    requires WellFormed(f) && Settled(f, env) && !(f.hasProbes && f.authBoundary >= 0)
    ensures Visits(f, env, FirstStep(f, env), EligibleSteps(f, env, 0, |f.steps| - 1)) && VerifySteps(f, env) == []
  {
    WalkUnprobed(f, env, 0);
  }

  /**
   FirstStep and then NextStep to the end visits the eligible credential steps in order, then verify when probes
   are enabled and there is a credential phase, then the eligible configure steps in order.
   */
  lemma WalkIsTheList(f: Flow, env: Env)
    requires WellFormed(f) && Settled(f, env)
    ensures Visits(f, env, FirstStep(f, env),
              EligibleSteps(f, env, 0, f.authBoundary) + VerifySteps(f, env)
              + EligibleSteps(f, env, f.authBoundary + 1, |f.steps| - 1))
  {
    var credentials := EligibleSteps(f, env, 0, f.authBoundary);
    var configure := EligibleSteps(f, env, f.authBoundary + 1, |f.steps| - 1);
    if f.hasProbes && f.authBoundary >= 0 {
      FirstWithProbes(f, env);
      WalkProbed(f, env, 0, RestOfWalk(f, env));
      assert credentials + RestOfWalk(f, env) == credentials + VerifySteps(f, env) + configure;
    } else {
      FirstWithoutProbes(f, env);
      EligibleSplit(f, env, 0, f.authBoundary, |f.steps| - 1);
      assert credentials + VerifySteps(f, env) == credentials;
    }
  }

  lemma {:induction false} VisitsUnique(f: Flow, env: Env, from: Lookup, a: seq<Step>, b: seq<Step>)
    requires Visits(f, env, from, a) && Visits(f, env, from, b)
    ensures a == b
    decreases |a|
  {
    if a != [] {
      VisitsUnique(f, env, NextStep(f, env, a[0].id), a[1..], b[1..]);
      assert a == [a[0]] + a[1..] && b == [b[0]] + b[1..];
    }
  }

  /** Verify is on some walk exactly when there are probes and a credential phase. */
  lemma VerifyReachableIff(f: Flow)
    requires WellFormed(f)
    ensures f.hasProbes && f.authBoundary >= 0 <==>
            exists env, list :: Settled(f, env) && Visits(f, env, FirstStep(f, env), list) && VERIFY_STEP in list
  {
    if f.hasProbes && f.authBoundary >= 0 {
      var env := Env(map i | 0 <= i < |f.steps| :: f.steps[i].id := false, Some(["p"]));
      assert Settled(f, env);
      WalkIsTheList(f, env);
      var list := EligibleSteps(f, env, 0, f.authBoundary) + VerifySteps(f, env)
              + EligibleSteps(f, env, f.authBoundary + 1, |f.steps| - 1);
      assert VERIFY_STEP in VerifySteps(f, env);
      assert VERIFY_STEP in list;
    }
    forall env, list | Settled(f, env) && Visits(f, env, FirstStep(f, env), list) && VERIFY_STEP in list
      ensures f.hasProbes && f.authBoundary >= 0
    {
      WalkIsTheList(f, env);
      VisitsUnique(f, env, FirstStep(f, env), list,
        EligibleSteps(f, env, 0, f.authBoundary) + VerifySteps(f, env)
              + EligibleSteps(f, env, f.authBoundary + 1, |f.steps| - 1));
      NoVerifyAmongEligible(f, env, 0, f.authBoundary);
      NoVerifyAmongEligible(f, env, f.authBoundary + 1, |f.steps| - 1);
    }
  }

  lemma {:induction false} NoVerifyAmongEligible(f: Flow, env: Env, lo: nat, hi: int)
    requires WellFormed(f) && hi < |f.steps|
    ensures VERIFY_STEP !in EligibleSteps(f, env, lo, hi)
    decreases hi + 1 - lo
  {
    if lo <= hi {
      assert Ordinary(f.steps, lo);
      NoVerifyAmongEligible(f, env, lo + 1, hi);
    }
  }
}
