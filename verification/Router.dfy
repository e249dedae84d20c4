/** The router itself: the dispatch as it is carried out, step by step, on a trace. */
module Router {
  import opened Options
  import opened Text
  import opened Dispatch

  class Router {
    const prefix: string
    const registry: Registry
    var trace: seq<Step>

    /** An empty prefix becomes "/". */
    constructor (prefix: string, registry: Registry)
      ensures this.prefix == (if prefix == "" then "/" else prefix) && this.registry == registry && trace == []
    {
      this.prefix := if prefix == "" then "/" else prefix;
      this.registry := registry;
      trace := [];
    }

    /** One message: the steps it adds to the trace and the error it returns. */
    method DispatchMessage(env: Env) returns (err: Outcome)
      modifies this
      ensures trace == old(trace) + DispatchRun(env, |old(trace)|, prefix, registry).steps
      ensures err == DispatchRun(env, |old(trace)|, prefix, registry).result
    {
      trace := trace + [Received];
      if Ignored(env, prefix) {
        trace := trace + [Unmatched];
        return Quiet;
      }
      ghost var run := PlannedRun(env, |trace|, prefix, registry);
      err := DispatchPlanned(env);
      assert trace == old(trace) + ([Received] + run.steps);
    }

    method DispatchPlanned(env: Env) returns (err: Outcome)
      modifies this
      ensures trace == old(trace) + PlannedRun(env, |old(trace)|, prefix, registry).steps
      ensures err == PlannedRun(env, |old(trace)|, prefix, registry).result
    {
      var id := ParseExplicit(env);
      if id != None {
        err := DispatchHandler(env, id.value);
      } else {
        err := DispatchPrefixless(env);
      }
    }

    method ParseExplicit(env: Env) returns (id: Option<string>)
      ensures id == Explicit(env, prefix, registry)
    {
      var content := Trim(env.text);
      if content == "" || HasPrefix(content, prefix) { return None; }
      var words := Fields(content);
      if |words| == 0 { return None; }
      id := registry.resolve(words[0]);
      if id != None && (id.value == CHART || id.value !in registry.handlers) {
        id := None;
      }
    }

    method DispatchHandler(env: Env, id: string) returns (err: Outcome)
      modifies this
      ensures trace == old(trace) + CommandRun(env, |old(trace)|, id).steps
      ensures err == CommandRun(env, |old(trace)|, id).result
    {
      if env.can != None && !env.can.value(id) {
        trace := trace + [Deny(id)];
        err := env.answer(|trace|);
        trace := trace + [DenyReply];
        return;
      }
      err := env.answer(|trace|);
      trace := trace + [Execute(id)];
    }

    /** Theme, then bare query, then the fallbacks. */
    method DispatchPrefixless(env: Env) returns (err: Outcome)
      modifies this
      ensures trace == old(trace) + PrefixlessRun(env, |old(trace)|, prefix, registry).steps
      ensures err == PrefixlessRun(env, |old(trace)|, prefix, registry).result
    {
      if IsPlain(env, prefix) && env.themeShape(Trim(env.text)) && STOCK in registry.entries && STOCK in registry.handlers {
        err := DispatchHandler(env, STOCK);
        return;
      }
      var id := FindBareQuery(env);
      if id != None {
        err := DispatchHandler(env, id.value);
        return;
      }
      err := DispatchAllFallbacks(env);
    }

    method FindBareQuery(env: Env) returns (id: Option<string>)
      ensures id == Bare(env, prefix, registry)
    {
      if !IsPlain(env, prefix) || !env.bareShape(Trim(env.text)) { return None; }
      for k := 0 to |registry.order|
        invariant FirstBare(env, registry, registry.order) == FirstBare(env, registry, registry.order[k..])
      {
        if TakesBare(env, registry, registry.order[k]) {
          return Some(registry.order[k]);
        }
      }
      id := None;
    }

    method DispatchAllFallbacks(env: Env) returns (err: Outcome)
      modifies this
      ensures trace == old(trace) + FallbackRun(env, |old(trace)|, registry).steps
      ensures err == FallbackRun(env, |old(trace)|, registry).result
    {
      ghost var stage := StageRun(env, |trace|, OfScope(registry.fallbacks, Deterministic));
      var stop, denied := RunDeterministic(env);
      ghost var rest := Afterwards(env, |trace|, registry, stop, denied);
      assert FallbackRun(env, |old(trace)|, registry) == After(stage.steps, rest);
      err := Conclude(env, stop, denied);
      Assoc(old(trace), stage.steps, rest.steps);
    }

    lemma Assoc(a: seq<Step>, b: seq<Step>, c: seq<Step>)
      ensures a + b + c == a + (b + c)
    {}

    method Conclude(env: Env, stop: Option<Outcome>, denied: bool) returns (err: Outcome)
      modifies this
      ensures trace == old(trace) + Afterwards(env, |old(trace)|, registry, stop, denied).steps
      ensures err == Afterwards(env, |old(trace)|, registry, stop, denied).result
    {
      if stop != None { return Swallow(stop.value); }
      if denied { return Quiet; }
      err := DispatchQuiet(env);
    }

    method RunDeterministic(env: Env) returns (stop: Option<Outcome>, denied: bool)
      modifies this
      ensures var stage := StageRun(env, |old(trace)|, OfScope(registry.fallbacks, Deterministic));
              trace == old(trace) + stage.steps && stop == stage.stop && denied == stage.denied
    {
      var fallbacks := FilterFallbacks(registry.fallbacks, Deterministic);
      stop, denied := RunStage(env, fallbacks);
    }

    method DispatchQuiet(env: Env) returns (err: Outcome)
      modifies this
      ensures trace == old(trace) + QuietRun(env, |old(trace)|, registry).steps
      ensures err == QuietRun(env, |old(trace)|, registry).result
    {
      var autoFallbacks := FilterFallbacks(registry.fallbacks, Automatic);
      if |autoFallbacks| == 0 {
        trace := trace + [Unmatched];
        return Quiet;
      }
      if env.policy == None { return Fault; }
      err := DispatchAutomaticFallbacks(env, autoFallbacks, env.policy.value);
    }

    method FilterFallbacks(entries: seq<Fallback>, scope: Scope) returns (filtered: seq<Fallback>)
      ensures filtered == OfScope(entries, scope)
    {
      filtered := [];
      for k := 0 to |entries|
        invariant filtered == OfScope(entries[..k], scope)
      {
        assert entries[..k + 1][..k] == entries[..k];
        if entries[k].scope == scope {
          filtered := filtered + [entries[k]];
        }
      }
      assert entries[..|entries|] == entries;
    }

    method MatchAutoFallbackCandidates(env: Env, fallbacks: seq<Fallback>) returns (matches: seq<Fallback>)
      ensures matches == Candidates(env, registry, fallbacks)
    {
      matches := [];
      for k := 0 to |fallbacks|
        invariant matches == Candidates(env, registry, fallbacks[..k])
      {
        assert fallbacks[..k + 1][..k] == fallbacks[..k];
        if registry.matchesAuto(fallbacks[k].id, env.text) {
          matches := matches + [fallbacks[k]];
        }
      }
      assert fallbacks[..|fallbacks|] == fallbacks;
    }

    /** Runs fallbacks until one answers; says whether any was denied. */
    method RunStage(env: Env, fallbacks: seq<Fallback>) returns (stop: Option<Outcome>, denied: bool)
      modifies this
      ensures trace == old(trace) + StageRun(env, |old(trace)|, fallbacks).steps
      ensures stop == StageRun(env, |old(trace)|, fallbacks).stop
      ensures denied == StageRun(env, |old(trace)|, fallbacks).denied
    {
      denied := false;
      ghost var done: seq<Step> := [];
      StageStart(env, |trace|, fallbacks);
      for k := 0 to |fallbacks|
        invariant trace == old(trace) + done
        invariant Going(env, |old(trace)|, fallbacks, k, done, denied)
      {
        var answer, refused := ExecuteFallbackEntry(env, fallbacks[k]);
        if answer != None {
          StageStop(env, |old(trace)|, fallbacks, k, done, denied);
          return answer, denied;
        }
        StageStep(env, |old(trace)|, fallbacks, k, done, denied);
        done := done + [Turn(env, fallbacks[k])];
        denied := denied || refused;
      }
      StageEnd(env, |old(trace)|, fallbacks, done, denied);
      stop := None;
    }

    method ExecuteFallbackEntry(env: Env, fb: Fallback) returns (stop: Option<Outcome>, refused: bool)
      modifies this
      ensures trace == old(trace) + [Turn(env, fb)] && refused == Turn(env, fb).DenyFall?
      ensures stop == if Stops(env, |old(trace)|, fb) then Some(env.answer(|old(trace)|)) else None
    {
      if !fb.aclExempt && !(env.can == None || env.can.value(fb.id)) {
        trace := trace + [DenyFall(fb)];
        return None, true;
      }
      var answer := env.answer(|trace|);
      trace := trace + [Fall(fb)];
      return if answer != Quiet then Some(answer) else None, false;
    }

    method DispatchAutomaticFallbacks(env: Env, autoFallbacks: seq<Fallback>, policy: Policy) returns (err: Outcome)
      requires autoFallbacks == OfScope(registry.fallbacks, Automatic)
      modifies this
      ensures trace == old(trace) + AutomaticRun(env, |old(trace)|, registry, policy).steps
      ensures err == AutomaticRun(env, |old(trace)|, registry, policy).result
    {
      if !env.autoShape(Trim(env.text)) {
        trace := trace + [Unmatched];
        return Quiet;
      }
      var candidates := MatchAutoFallbackCandidates(env, autoFallbacks);
      if |candidates| == 0 {
        trace := trace + [Unmatched];
        return Quiet;
      }
      if !policy.localAuto {
        trace := trace + [PolicySkip];
        return Quiet;
      }
      if env.verdict == None { return Fault; }
      if !env.verdict.value {
        trace := trace + [PolicySkip];
        return Quiet;
      }
      var allowed := FilterAllowed(policy, candidates);
      var stop, denied := RunStage(env, allowed);
      if stop != None { return Swallow(stop.value); }
      if denied { return Quiet; }
      trace := trace + [Unmatched];
      err := Quiet;
    }

    method FilterAllowed(policy: Policy, fallbacks: seq<Fallback>) returns (allowed: seq<Fallback>)
      ensures allowed == AllowedBy(policy, fallbacks)
    {
      allowed := [];
      for k := 0 to |fallbacks|
        invariant allowed == AllowedBy(policy, fallbacks[..k])
      {
        assert fallbacks[..k + 1][..k] == fallbacks[..k];
        if policy.allows(fallbacks[k].id) {
          allowed := allowed + [fallbacks[k]];
        }
      }
      assert fallbacks[..|fallbacks|] == fallbacks;
    }
  }
}
