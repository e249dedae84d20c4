/** The router's dispatch of one message: what it runs, in which order, and what stops it.
    A step is an entry of the trace; handlers may answer anything. */
module Dispatch {
  import opened Options
  import opened Text

  /** What a handler answers: nil, ErrHandled, or another error. */
  datatype Outcome = Quiet | Handled | Fault

  datatype Scope = Deterministic | Automatic

  datatype Fallback = Fallback(id: string, scope: Scope, aclExempt: bool)

  datatype Step =
    | Received
    | Unmatched
    | Execute(id: string)
    | Deny(id: string)
    | DenyReply
    | Fall(fallback: Fallback)
    | DenyFall(fallback: Fallback)
    | PolicySkip

  /** What is registered, and the parts of the catalog the router asks. */
  datatype Registry = Registry(
    resolve: string -> Option<string>,
    entries: set<string>,
    handlers: set<string>,
    order: seq<string>,
    matchesBare: (string, string) -> bool,
    fallbacks: seq<Fallback>,
    matchesAuto: (string, string) -> bool)

  datatype Policy = Policy(localAuto: bool, allows: string -> bool)

  /** Everything a dispatch depends on: the message, the ACL answers for it (None without a
      controller), the auto-query policy and its evaluation (None for an error), the shape rules
      that follow the prefix rule, and the answer of the n-th step of the trace. */
  datatype Env = Env(
    text: string,
    can: Option<string -> bool>,
    policy: Option<Policy>,
    verdict: Option<bool>,
    bareShape: string -> bool,
    themeShape: string -> bool,
    autoShape: string -> bool,
    answer: nat -> Outcome)

  predicate Permitted(env: Env, id: string) {
    env.can == None || env.can.value(id)
  }

  predicate MayFall(env: Env, f: Fallback) {
    f.aclExempt || Permitted(env, f.id)
  }

  // ---------- the plan ----------

  predicate IsSlashCommand(text: string, prefix: string) {
    HasPrefix(Trim(text), prefix) && Fields(TrimPrefix(Trim(text), prefix)) != []
  }

  /** Hangul letters that are not syllables, spaces and tabs. */
  predicate IsJamoOnly(text: string) {
    && Trim(text) != []
    && forall i :: 0 <= i < |Trim(text)| ==>
         Trim(text)[i] == ' ' || Trim(text)[i] == '\t' || '\U{3131}' <= Trim(text)[i] <= '\U{3163}'
  }

  const CHART := "chart"
  const STOCK := "stock"

  /** The command a message names with its first word. */
  function Explicit(env: Env, prefix: string, reg: Registry): Option<string> {
    var content := Trim(env.text);
    var words := Fields(content);
    if content == [] || HasPrefix(content, prefix) || words == [] then None
    else
      var id := reg.resolve(words[0]);
      if id == None || id.value == CHART || id.value !in reg.handlers then None else id
  }

  predicate IsPlain(env: Env, prefix: string) {
    Trim(env.text) != [] && !(prefix != [] && HasPrefix(Trim(env.text), prefix))
  }

  function Theme(env: Env, prefix: string, reg: Registry): Option<string> {
    if IsPlain(env, prefix) && env.themeShape(Trim(env.text)) && STOCK in reg.entries && STOCK in reg.handlers
    then Some(STOCK) else None
  }

  predicate TakesBare(env: Env, reg: Registry, id: string) {
    id in reg.handlers && reg.matchesBare(id, Trim(env.text)) && id in reg.entries
  }

  function FirstBare(env: Env, reg: Registry, ids: seq<string>): Option<string> {
    if ids == [] then None
    else if TakesBare(env, reg, ids[0]) then Some(ids[0])
    else FirstBare(env, reg, ids[1..])
  }

  function Bare(env: Env, prefix: string, reg: Registry): Option<string> {
    if IsPlain(env, prefix) && env.bareShape(Trim(env.text)) then FirstBare(env, reg, reg.order) else None
  }

  // ---------- what runs ----------

  datatype Run = Run(steps: seq<Step>, result: Outcome)

  /** A command: the ACL decides, and its error is the result. */
  function CommandRun(env: Env, n: nat, id: string): Run {
    if Permitted(env, id) then Run([Execute(id)], env.answer(n))
    else Run([Deny(id), DenyReply], env.answer(n + 1))
  }

  /** A stage of fallbacks: its steps, the answer that stopped it if one did, and whether any
      fallback was denied. */
  datatype Stage = Stage(steps: seq<Step>, stop: Option<Outcome>, denied: bool)

  function StageRun(env: Env, n: nat, fallbacks: seq<Fallback>): Stage
    decreases |fallbacks|
  {
    if fallbacks == [] then Stage([], None, false)
    else if !MayFall(env, fallbacks[0]) then Before(DenyFall(fallbacks[0]), StageRun(env, n + 1, fallbacks[1..]))
    else if env.answer(n) != Quiet then Stage([Fall(fallbacks[0])], Some(env.answer(n)), false)
    else Before(Fall(fallbacks[0]), StageRun(env, n + 1, fallbacks[1..]))
  }

  function Before(step: Step, s: Stage): Stage {
    Stage([step] + s.steps, s.stop, step.DenyFall? || s.denied)
  }

  function Continue(done: seq<Step>, denied: bool, s: Stage): Stage {
    Stage(done + s.steps, s.stop, denied || s.denied)
  }

  /** What a fallback's turn adds to the trace. */
  function Turn(env: Env, f: Fallback): Step {
    if MayFall(env, f) then Fall(f) else DenyFall(f)
  }

  predicate Stops(env: Env, n: nat, f: Fallback) {
    MayFall(env, f) && env.answer(n) != Quiet
  }

  /** The stage has done the first k fallbacks and goes on with the others. */
  ghost predicate Going(env: Env, n: nat, fallbacks: seq<Fallback>, k: nat, done: seq<Step>, denied: bool)
    requires k <= |fallbacks|
  {
    StageRun(env, n, fallbacks) == Continue(done, denied, StageRun(env, n + |done|, fallbacks[k..]))
  }

  lemma {:induction false} StageStart(env: Env, n: nat, fallbacks: seq<Fallback>)
    ensures Going(env, n, fallbacks, 0, [], false)
  {
    assert fallbacks[0..] == fallbacks;
    assert [] + StageRun(env, n, fallbacks).steps == StageRun(env, n, fallbacks).steps;
  }

  lemma {:induction false} StageUnfold(env: Env, n: nat, fallbacks: seq<Fallback>, k: nat)
    requires k < |fallbacks| && !Stops(env, n, fallbacks[k])
    ensures StageRun(env, n, fallbacks[k..]) == Before(Turn(env, fallbacks[k]), StageRun(env, n + 1, fallbacks[k + 1..]))
  {
    assert fallbacks[k..][0] == fallbacks[k] && fallbacks[k..][1..] == fallbacks[k + 1..];
  }

  lemma {:induction false} ContinueBefore(done: seq<Step>, denied: bool, step: Step, s: Stage)
    ensures Continue(done, denied, Before(step, s)) == Continue(done + [step], denied || step.DenyFall?, s)
  {
    assert done + ([step] + s.steps) == done + [step] + s.steps;
  }

  lemma {:induction false} StageStep(env: Env, n: nat, fallbacks: seq<Fallback>, k: nat, done: seq<Step>, denied: bool)
    requires k < |fallbacks| && Going(env, n, fallbacks, k, done, denied) && !Stops(env, n + |done|, fallbacks[k])
    ensures Going(env, n, fallbacks, k + 1, done + [Turn(env, fallbacks[k])], denied || Turn(env, fallbacks[k]).DenyFall?)
  {
    var m := n + |done|;
    StageUnfold(env, m, fallbacks, k);
    ContinueBefore(done, denied, Turn(env, fallbacks[k]), StageRun(env, m + 1, fallbacks[k + 1..]));
    assert n + |done + [Turn(env, fallbacks[k])]| == m + 1;
  }

  lemma {:induction false} StageStop(env: Env, n: nat, fallbacks: seq<Fallback>, k: nat, done: seq<Step>, denied: bool)
    requires k < |fallbacks| && Going(env, n, fallbacks, k, done, denied) && Stops(env, n + |done|, fallbacks[k])
    ensures StageRun(env, n, fallbacks) == Stage(done + [Turn(env, fallbacks[k])], Some(env.answer(n + |done|)), denied)
  {
    assert fallbacks[k..][0] == fallbacks[k];
  }

  lemma {:induction false} StageEnd(env: Env, n: nat, fallbacks: seq<Fallback>, done: seq<Step>, denied: bool)
    requires Going(env, n, fallbacks, |fallbacks|, done, denied)
    ensures StageRun(env, n, fallbacks) == Stage(done, None, denied)
  {
    assert fallbacks[|fallbacks|..] == [] && done + [] == done;
  }

  function OfScope(fallbacks: seq<Fallback>, scope: Scope): seq<Fallback> {
    if fallbacks == [] then []
    else
      var n := |fallbacks| - 1;
      OfScope(fallbacks[..n], scope) + if fallbacks[n].scope == scope then [fallbacks[n]] else []
  }

  function Candidates(env: Env, reg: Registry, fallbacks: seq<Fallback>): seq<Fallback> {
    if fallbacks == [] then []
    else
      var n := |fallbacks| - 1;
      Candidates(env, reg, fallbacks[..n]) + if reg.matchesAuto(fallbacks[n].id, env.text) then [fallbacks[n]] else []
  }

  function AllowedBy(p: Policy, fallbacks: seq<Fallback>): seq<Fallback> {
    if fallbacks == [] then []
    else
      var n := |fallbacks| - 1;
      AllowedBy(p, fallbacks[..n]) + if p.allows(fallbacks[n].id) then [fallbacks[n]] else []
  }

  /** swallowHandled. */
  function Swallow(o: Outcome): Outcome {
    if o == Fault then Fault else Quiet
  }

  function After(steps: seq<Step>, r: Run): Run {
    Run(steps + r.steps, r.result)
  }

  function AutomaticRun(env: Env, n: nat, reg: Registry, p: Policy): Run {
    var candidates := Candidates(env, reg, OfScope(reg.fallbacks, Automatic));
    if !env.autoShape(Trim(env.text)) || candidates == [] then Run([Unmatched], Quiet)
    else if !p.localAuto then Run([PolicySkip], Quiet)
    else if env.verdict == None then Run([], Fault)
    else if !env.verdict.value then Run([PolicySkip], Quiet)
    else
      var stage := StageRun(env, n, AllowedBy(p, candidates));
      if stage.stop != None then Run(stage.steps, Swallow(stage.stop.value))
      else if stage.denied then Run(stage.steps, Quiet)
      else Run(stage.steps + [Unmatched], Quiet)
  }

  /** What follows a deterministic stage that answered and denied nothing. */
  function QuietRun(env: Env, n: nat, reg: Registry): Run {
    if OfScope(reg.fallbacks, Automatic) == [] then Run([Unmatched], Quiet)
    else if env.policy == None then Run([], Fault)
    else AutomaticRun(env, n, reg, env.policy.value)
  }

  /** What follows a deterministic stage with this answer and denial. */
  function Afterwards(env: Env, n: nat, reg: Registry, stop: Option<Outcome>, denied: bool): Run {
    if stop != None then Run([], Swallow(stop.value))
    else if denied then Run([], Quiet)
    else QuietRun(env, n, reg)
  }

  function FallbackRun(env: Env, n: nat, reg: Registry): Run {
    var stage := StageRun(env, n, OfScope(reg.fallbacks, Deterministic));
    After(stage.steps, Afterwards(env, n + |stage.steps|, reg, stage.stop, stage.denied))
  }

  predicate Ignored(env: Env, prefix: string) {
    IsSlashCommand(env.text, prefix) || IsJamoOnly(env.text)
  }

  /** The command of a message that names none: a theme, or what first takes it bare. */
  function Implied(env: Env, prefix: string, reg: Registry): Option<string> {
    if Theme(env, prefix, reg) != None then Theme(env, prefix, reg) else Bare(env, prefix, reg)
  }

  function PrefixlessRun(env: Env, n: nat, prefix: string, reg: Registry): Run {
    if Implied(env, prefix, reg) != None then CommandRun(env, n, Implied(env, prefix, reg).value)
    else FallbackRun(env, n, reg)
  }

  function PlannedRun(env: Env, n: nat, prefix: string, reg: Registry): Run {
    if Explicit(env, prefix, reg) != None then CommandRun(env, n, Explicit(env, prefix, reg).value)
    else PrefixlessRun(env, n, prefix, reg)
  }

  function DispatchRun(env: Env, n: nat, prefix: string, reg: Registry): Run {
    if Ignored(env, prefix) then Run([Received, Unmatched], Quiet)
    else After([Received], PlannedRun(env, n + 1, prefix, reg))
  }

  // ---------- a stage ----------

  /** A stage visits its fallbacks in order, each run or denied as the ACL says; all it ran but
      the last answered nothing, and it stops before the end exactly on an answer. */
  lemma {:induction false} StageMeaning(env: Env, n: nat, fallbacks: seq<Fallback>)
    ensures StageIs(env, n, fallbacks, StageRun(env, n, fallbacks))
    decreases |fallbacks|
  {
    if fallbacks != [] && (!MayFall(env, fallbacks[0]) || env.answer(n) == Quiet) {
      StageMeaning(env, n + 1, fallbacks[1..]);
      StageLonger(env, n, fallbacks, StageRun(env, n + 1, fallbacks[1..]));
    }
  }

  ghost predicate StageIs(env: Env, n: nat, fallbacks: seq<Fallback>, s: Stage) {
    && |s.steps| <= |fallbacks|
    && (forall i :: 0 <= i < |s.steps| ==>
          s.steps[i] == Turn(env, fallbacks[i]))
    && (forall i :: 0 <= i < |s.steps| - 1 && s.steps[i].Fall? ==> env.answer(n + i) == Quiet)
    && (if s.stop == None then
          && |s.steps| == |fallbacks|
          && (|s.steps| > 0 && s.steps[|s.steps| - 1].Fall? ==> env.answer(n + |s.steps| - 1) == Quiet)
        else
          |s.steps| > 0 && s.steps[|s.steps| - 1].Fall? && env.answer(n + |s.steps| - 1) == s.stop.value != Quiet)
  }

  lemma {:induction false} StageLonger(env: Env, n: nat, fallbacks: seq<Fallback>, rest: Stage)
    requires fallbacks != [] && StageIs(env, n + 1, fallbacks[1..], rest)
    requires MayFall(env, fallbacks[0]) ==> env.answer(n) == Quiet
    ensures StageIs(env, n, fallbacks, Before(Turn(env, fallbacks[0]), rest))
  {
    var s := Before(Turn(env, fallbacks[0]), rest);
    forall i | 1 <= i < |s.steps|
      ensures s.steps[i] == Turn(env, fallbacks[i])
      ensures s.steps[i].Fall? && i < |s.steps| - 1 ==> env.answer(n + i) == Quiet
    {
      assert s.steps[i] == rest.steps[i - 1] && fallbacks[i] == fallbacks[1..][i - 1];
      assert n + 1 + (i - 1) == n + i;
    }
    if rest.steps != [] {
      assert s.steps[|s.steps| - 1] == rest.steps[|rest.steps| - 1];
    }
  }

  lemma {:induction false} OfScopeMembers(fallbacks: seq<Fallback>, scope: Scope)
    ensures forall i :: 0 <= i < |OfScope(fallbacks, scope)| ==>
              OfScope(fallbacks, scope)[i] in fallbacks && OfScope(fallbacks, scope)[i].scope == scope
  {
    if fallbacks != [] { OfScopeMembers(fallbacks[..|fallbacks| - 1], scope); }
  }

  lemma {:induction false} CandidatesMembers(env: Env, reg: Registry, fallbacks: seq<Fallback>)
    ensures forall i :: 0 <= i < |Candidates(env, reg, fallbacks)| ==>
              Candidates(env, reg, fallbacks)[i] in fallbacks && reg.matchesAuto(Candidates(env, reg, fallbacks)[i].id, env.text)
  {
    if fallbacks != [] { CandidatesMembers(env, reg, fallbacks[..|fallbacks| - 1]); }
  }

  lemma {:induction false} AllowedByMembers(p: Policy, fallbacks: seq<Fallback>)
    ensures forall i :: 0 <= i < |AllowedBy(p, fallbacks)| ==>
              AllowedBy(p, fallbacks)[i] in fallbacks && p.allows(AllowedBy(p, fallbacks)[i].id)
  {
    if fallbacks != [] { AllowedByMembers(p, fallbacks[..|fallbacks| - 1]); }
  }

  // ---------- safety ----------

  predicate Runs(step: Step) {
    step.Execute? || step.Fall?
  }

  /** A step that runs a handler was permitted; an automatic one was wanted in every way. */
  predicate Legal(env: Env, reg: Registry, step: Step) {
    && (step.Execute? ==> Permitted(env, step.id) && step.id in reg.handlers)
    && (step.Fall? ==> step.fallback in reg.fallbacks && MayFall(env, step.fallback))
    && (step.Fall? && step.fallback.scope == Automatic ==>
          && env.policy.Some? && env.policy.value.localAuto && env.policy.value.allows(step.fallback.id)
          && env.verdict == Some(true)
          && reg.matchesAuto(step.fallback.id, env.text))
  }

  ghost predicate AllLegal(env: Env, reg: Registry, steps: seq<Step>) {
    forall i :: 0 <= i < |steps| ==> Legal(env, reg, steps[i])
  }

  /** What may come before a step: a handler that ran answered nothing if anything runs after
      it, commands run alone, and before an automatic fallback no deterministic one was denied. */
  ghost predicate Ordered(env: Env, n: nat, steps: seq<Step>) {
    && (forall i, j :: 0 <= i < j < |steps| && Runs(steps[i]) && Runs(steps[j]) ==>
          steps[i].Fall? && steps[j].Fall? && env.answer(n + i) == Quiet)
    && (forall i, j :: 0 <= i < j < |steps| && IsAutomatic(steps[j]) ==> !DeniesDeterministic(steps[i]))
  }

  predicate IsAutomatic(step: Step) {
    (step.Fall? || step.DenyFall?) && step.fallback.scope == Automatic
  }

  predicate DeniesDeterministic(step: Step) {
    step.DenyFall? && step.fallback.scope == Deterministic
  }

  /** Every step of a stage runs or denies the fallback at its place, as the ACL says. */
  ghost predicate Visits(env: Env, fallbacks: seq<Fallback>, steps: seq<Step>) {
    && |steps| <= |fallbacks|
    && (forall i :: 0 <= i < |steps| ==>
          steps[i] == Turn(env, fallbacks[i]))
  }

  lemma StageIsSafe(env: Env, n: nat, fallbacks: seq<Fallback>, scope: Scope)
    requires forall i :: 0 <= i < |fallbacks| ==> fallbacks[i].scope == scope
    ensures Visits(env, fallbacks, StageRun(env, n, fallbacks).steps)
    ensures Ordered(env, n, StageRun(env, n, fallbacks).steps)
  {
    StageMeaning(env, n, fallbacks);
  }

  /** An automatic stage may follow a deterministic one that was quiet and denied nothing. */
  lemma {:induction false} OrderedConcat(env: Env, n: nat, first: seq<Step>, second: seq<Step>)
    requires Ordered(env, n, first) && Ordered(env, n + |first|, second)
    requires forall i :: 0 <= i < |first| ==> !first[i].Execute? && !first[i].DenyFall? && (first[i].Fall? ==> env.answer(n + i) == Quiet)
    requires forall i :: 0 <= i < |second| ==> !second[i].Execute?
    ensures Ordered(env, n, first + second)
  {
    var all := first + second;
    forall i, j | 0 <= i < j < |all| && Runs(all[i]) && Runs(all[j])
      ensures all[i].Fall? && all[j].Fall? && env.answer(n + i) == Quiet
    {
      if i >= |first| {
        assert Runs(second[i - |first|]) && Runs(second[j - |first|]);
        assert env.answer(n + |first| + (i - |first|)) == Quiet;
      }
    }
  }

  lemma {:induction false} AppendUnmatched(env: Env, n: nat, steps: seq<Step>)
    requires Ordered(env, n, steps)
    ensures Ordered(env, n, steps + [Unmatched])
  {
  }

  /** A fallback that may be on the list of its stage. */
  predicate Wanted(env: Env, reg: Registry, f: Fallback) {
    && f in reg.fallbacks
    && (f.scope == Automatic ==>
          && env.policy.Some? && env.policy.value.localAuto && env.policy.value.allows(f.id)
          && env.verdict == Some(true)
          && reg.matchesAuto(f.id, env.text))
  }

  lemma StageIsLegal(env: Env, n: nat, reg: Registry, fallbacks: seq<Fallback>)
    requires forall i :: 0 <= i < |fallbacks| ==> Wanted(env, reg, fallbacks[i])
    ensures AllLegal(env, reg, StageRun(env, n, fallbacks).steps)
    ensures NoCommand(StageRun(env, n, fallbacks).steps)
  {
    StageMeaning(env, n, fallbacks);
  }

  ghost predicate NoCommand(steps: seq<Step>) {
    forall i :: 0 <= i < |steps| ==> !steps[i].Execute?
  }

  lemma AllowedAreWanted(env: Env, reg: Registry, p: Policy, allowed: seq<Fallback>)
    requires allowed == AllowedBy(p, Candidates(env, reg, OfScope(reg.fallbacks, Automatic)))
    requires env.policy == Some(p) && p.localAuto && env.verdict == Some(true)
    ensures forall i :: 0 <= i < |allowed| ==> allowed[i].scope == Automatic && Wanted(env, reg, allowed[i])
  {
    var automatic := OfScope(reg.fallbacks, Automatic);
    var candidates := Candidates(env, reg, automatic);
    OfScopeMembers(reg.fallbacks, Automatic);
    CandidatesMembers(env, reg, automatic);
    AllowedByMembers(p, candidates);
  }

  lemma AutomaticSafe(env: Env, n: nat, reg: Registry, p: Policy)
    requires env.policy == Some(p)
    ensures AllLegal(env, reg, AutomaticRun(env, n, reg, p).steps)
    ensures Ordered(env, n, AutomaticRun(env, n, reg, p).steps)
    ensures NoCommand(AutomaticRun(env, n, reg, p).steps)
  {
    var candidates := Candidates(env, reg, OfScope(reg.fallbacks, Automatic));
    if env.autoShape(Trim(env.text)) && candidates != [] && p.localAuto && env.verdict == Some(true) {
      var allowed := AllowedBy(p, candidates);
      AllowedAreWanted(env, reg, p, allowed);
      StageIsSafe(env, n, allowed, Automatic);
      StageIsLegal(env, n, reg, allowed);
      AppendUnmatched(env, n, StageRun(env, n, allowed).steps);
    }
  }

  /** A stage that denied nothing and was not stopped ran everything to no answer. */
  ghost predicate AllQuiet(env: Env, n: nat, steps: seq<Step>) {
    forall i :: 0 <= i < |steps| ==> steps[i].Fall? && env.answer(n + i) == Quiet
  }

  ghost predicate NoneDenied(steps: seq<Step>) {
    forall i :: 0 <= i < |steps| ==> !steps[i].DenyFall?
  }

  lemma NoneDeniedBefore(step: Step, rest: seq<Step>)
    ensures NoneDenied([step] + rest) <==> !step.DenyFall? && NoneDenied(rest)
  {
    var all := [step] + rest;
    assert all[0] == step;
    if NoneDenied(all) {
      forall i | 0 <= i < |rest| ensures !rest[i].DenyFall? {
        assert rest[i] == all[i + 1];
      }
    }
  }

  lemma {:induction false} DeniedIff(env: Env, n: nat, fallbacks: seq<Fallback>)
    ensures StageRun(env, n, fallbacks).denied <==> !NoneDenied(StageRun(env, n, fallbacks).steps)
    decreases |fallbacks|
  {
    if fallbacks != [] && !Stops(env, n, fallbacks[0]) {
      DeniedIff(env, n + 1, fallbacks[1..]);
      NoneDeniedBefore(Turn(env, fallbacks[0]), StageRun(env, n + 1, fallbacks[1..]).steps);
    }
  }

  lemma QuietStage(env: Env, n: nat, fallbacks: seq<Fallback>)
    requires StageRun(env, n, fallbacks).stop == None && !StageRun(env, n, fallbacks).denied
    ensures AllQuiet(env, n, StageRun(env, n, fallbacks).steps)
  {
    StageMeaning(env, n, fallbacks);
    DeniedIff(env, n, fallbacks);
    QuietSteps(env, n, fallbacks, StageRun(env, n, fallbacks));
  }

  lemma QuietSteps(env: Env, n: nat, fallbacks: seq<Fallback>, s: Stage)
    requires StageIs(env, n, fallbacks, s) && s.stop == None && NoneDenied(s.steps)
    ensures AllQuiet(env, n, s.steps)
  {
    forall i | 0 <= i < |s.steps| ensures s.steps[i].Fall? && env.answer(n + i) == Quiet {
      assert !s.steps[i].DenyFall? && s.steps[i] == Turn(env, fallbacks[i]);
      assert i < |s.steps| - 1 || i == |s.steps| - 1;
    }
  }

  ghost predicate Safe(env: Env, n: nat, reg: Registry, steps: seq<Step>) {
    AllLegal(env, reg, steps) && Ordered(env, n, steps)
  }

  lemma DeterministicSafe(env: Env, n: nat, reg: Registry, stage: Stage)
    requires stage == StageRun(env, n, OfScope(reg.fallbacks, Deterministic))
    ensures Safe(env, n, reg, stage.steps) && NoCommand(stage.steps)
  {
    var deterministic := OfScope(reg.fallbacks, Deterministic);
    OfScopeMembers(reg.fallbacks, Deterministic);
    StageIsSafe(env, n, deterministic, Deterministic);
    StageIsLegal(env, n, reg, deterministic);
  }

  lemma {:induction false} LegalConcat(env: Env, reg: Registry, first: seq<Step>, second: seq<Step>)
    requires AllLegal(env, reg, first) && AllLegal(env, reg, second) && NoCommand(first) && NoCommand(second)
    ensures AllLegal(env, reg, first + second) && NoCommand(first + second)
  {
  }

  lemma QuietSafe(env: Env, n: nat, reg: Registry)
    ensures Safe(env, n, reg, QuietRun(env, n, reg).steps) && NoCommand(QuietRun(env, n, reg).steps)
  {
    if env.policy != None { AutomaticSafe(env, n, reg, env.policy.value); }
  }

  lemma FallbackSafe(env: Env, n: nat, reg: Registry)
    ensures Safe(env, n, reg, FallbackRun(env, n, reg).steps) && NoCommand(FallbackRun(env, n, reg).steps)
  {
    var stage := StageRun(env, n, OfScope(reg.fallbacks, Deterministic));
    DeterministicSafe(env, n, reg, stage);
    assert stage.steps + [] == stage.steps;
    if stage.stop == None && !stage.denied {
      QuietStage(env, n, OfScope(reg.fallbacks, Deterministic));
      BothSafe(env, n, reg, stage.steps);
    }
  }

  lemma BothSafe(env: Env, n: nat, reg: Registry, steps: seq<Step>)
    requires Safe(env, n, reg, steps) && AllQuiet(env, n, steps)
    ensures Safe(env, n, reg, steps + QuietRun(env, n + |steps|, reg).steps)
    ensures NoCommand(steps + QuietRun(env, n + |steps|, reg).steps)
  {
    QuietSafe(env, n + |steps|, reg);
    StagesConcat(env, n, reg, steps, QuietRun(env, n + |steps|, reg).steps);
  }

  lemma {:induction false} StagesConcat(env: Env, n: nat, reg: Registry, first: seq<Step>, second: seq<Step>)
    requires Safe(env, n, reg, first) && Safe(env, n + |first|, reg, second) && NoCommand(second)
    requires AllQuiet(env, n, first)
    ensures Safe(env, n, reg, first + second) && NoCommand(first + second)
  {
    OrderedConcat(env, n, first, second);
    LegalConcat(env, reg, first, second);
  }

  lemma {:induction false} FirstBareTakes(env: Env, reg: Registry, ids: seq<string>)
    ensures FirstBare(env, reg, ids).Some? ==> TakesBare(env, reg, FirstBare(env, reg, ids).value)
  {
    if ids != [] { FirstBareTakes(env, reg, ids[1..]); }
  }

  lemma {:induction false} CommandSafe(env: Env, n: nat, reg: Registry, id: string)
    requires id in reg.handlers
    ensures Safe(env, n, reg, [Received] + CommandRun(env, n + 1, id).steps)
  {
  }

  lemma {:induction false} AfterReceived(env: Env, n: nat, reg: Registry, steps: seq<Step>)
    requires Safe(env, n + 1, reg, steps) && NoCommand(steps)
    ensures Safe(env, n, reg, [Received] + steps)
  {
    OrderedConcat(env, n, [Received], steps);
    LegalConcat(env, reg, [Received], steps);
  }

  /** Main result: whatever is registered and whatever handlers answer, every handler that runs
      was permitted (an automatic one also by policy and evaluation); at most one command is
      executed and then nothing else; each fallback runs only after all before it answered
      nothing; no automatic one follows a denied deterministic one; and a slash command or a
      message of bare letters runs nothing. */
  lemma DispatchIsSafe(env: Env, n: nat, prefix: string, reg: Registry)
    ensures Safe(env, n, reg, DispatchRun(env, n, prefix, reg).steps)
    ensures Ignored(env, prefix) ==> DispatchRun(env, n, prefix, reg) == Run([Received, Unmatched], Quiet)
  {
    if !Ignored(env, prefix) {
      if Explicit(env, prefix, reg) != None {
        CommandSafe(env, n, reg, Explicit(env, prefix, reg).value);
      } else if Implied(env, prefix, reg) != None {
        FirstBareTakes(env, reg, reg.order);
        CommandSafe(env, n, reg, Implied(env, prefix, reg).value);
      } else {
        FallbackSafe(env, n + 1, reg);
        AfterReceived(env, n, reg, FallbackRun(env, n + 1, reg).steps);
      }
    }
  }

  /** A message that starts with the prefix never executes a command. */
  lemma PrefixedExecutesNothing(env: Env, n: nat, prefix: string, reg: Registry)
    requires prefix != [] && HasPrefix(Trim(env.text), prefix)
    ensures forall i :: 0 <= i < |DispatchRun(env, n, prefix, reg).steps| ==> !DispatchRun(env, n, prefix, reg).steps[i].Execute?
  {
    if !Ignored(env, prefix) {
      FallbackSafe(env, n + 1, reg);
    }
  }

  /** Main result: a message that starts with the prefix is not quite ignored: the first
      deterministic fallback, if it may, is run on it exactly when nothing but blanks follows
      the prefix (and it is not one of bare letters). */
  lemma BarePrefixReachesFallbacks(env: Env, n: nat, prefix: string, reg: Registry)
    requires prefix != [] && HasPrefix(Trim(env.text), prefix) && !IsJamoOnly(env.text)
    requires OfScope(reg.fallbacks, Deterministic) != [] && MayFall(env, OfScope(reg.fallbacks, Deterministic)[0])
    ensures (exists i :: 0 <= i < |DispatchRun(env, n, prefix, reg).steps| && Runs(DispatchRun(env, n, prefix, reg).steps[i]))
            <==> Trim(TrimPrefix(Trim(env.text), prefix)) == []
  {
    FieldsIffNotBlank(TrimPrefix(Trim(env.text), prefix));
    if !Ignored(env, prefix) {
      var first := OfScope(reg.fallbacks, Deterministic)[0];
      StageMeaning(env, n + 1, OfScope(reg.fallbacks, Deterministic));
      var steps := DispatchRun(env, n, prefix, reg).steps;
      assert steps[1] == Fall(first);
      assert Runs(steps[1]);
    }
  }
}
