/** What a message gets: which command it runs, or which fallbacks in which order, and what error
    comes back, said from the message, the registry and the answers. */
module DispatchAnswers {
  import opened Options
  import opened Text
  import opened Sublists
  import opened Dispatch

  // ---------- which messages are ignored ----------

  predicate IsBlankOrJamo(c: char) {
    c == ' ' || c == '\t' || '\U{3131}' <= c <= '\U{3163}'
  }

  /** A message is ignored exactly when something but blanks follows the prefix, or when it is made of
      letters that are no syllables and blanks. */
  lemma IgnoredIff(env: Env, n: nat, prefix: string, reg: Registry)
    ensures var text := Trim(env.text);
            Ignored(env, prefix) <==>
              || (prefix <= text && Trim(text[|prefix|..]) != "")
              || (text != "" && forall i :: 0 <= i < |text| ==> IsBlankOrJamo(text[i]))
    ensures Ignored(env, prefix) ==> DispatchRun(env, n, prefix, reg) == Run([Received, Unmatched], Quiet)
  {
    var text := Trim(env.text);
    if prefix <= text { FieldsIffNotBlank(text[|prefix|..]); }
  }

  // ---------- commands ----------

  /** The command alone runs, and its answer comes back; without permission the denial is answered. */
  ghost predicate OnlyRuns(env: Env, n: nat, id: string, r: Run) {
    if env.can.Some? && !env.can.value(id)
    then r == Run([Received, Deny(id), DenyReply], env.answer(n + 2))
    else r == Run([Received, Execute(id)], env.answer(n + 1))
  }

  lemma {:induction false} WordThen(word: string, rest: string)
    requires IsWord(word) && (rest == "" || IsSpace(rest[0]))
    ensures WordLength(word + rest) == |word|
  {
    if |word| == 1 {
      assert (word + rest)[1..] == rest;
    } else {
      assert (word + rest)[1..] == word[1..] + rest;
      WordThen(word[1..], rest);
    }
  }

  lemma FirstWord(word: string, rest: string)
    requires IsWord(word) && (rest == "" || IsSpace(rest[0]))
    ensures Fields(word + rest) != [] && Fields(word + rest)[0] == word
  {
    WordThen(word, rest);
    assert (word + rest)[..|word|] == word;
    assert !IsSpace((word + rest)[0]);
  }

  /** Main result: a message that does not start with the prefix and whose first word names a registered
      command, the chart apart, runs that command and nothing else, whatever follows the word. */
  lemma NamedCommandRuns(env: Env, n: nat, prefix: string, reg: Registry, word: string, rest: string, id: string)
    requires Trim(env.text) == word + rest && IsWord(word) && (rest == "" || IsSpace(rest[0]))
    requires !(prefix <= Trim(env.text)) && exists i :: 0 <= i < |Trim(env.text)| && !IsBlankOrJamo(Trim(env.text)[i])
    requires reg.resolve(word) == Some(id) && id != "chart" && id in reg.handlers
    ensures OnlyRuns(env, n, id, DispatchRun(env, n, prefix, reg))
  {
    FirstWord(word, rest);
    assert Explicit(env, prefix, reg) == Some(id);
    assert !Ignored(env, prefix) by { IgnoredIff(env, n, prefix, reg); }
  }

  /** No command is named: nothing is left after trimming, the prefix comes first, or the first word
      names no registered command but the chart. */
  predicate NamesNone(env: Env, prefix: string, reg: Registry, word: string) {
    prefix <= Trim(env.text) || reg.resolve(word).None? || reg.resolve(word).value == "chart"
    || reg.resolve(word).value !in reg.handlers
  }

  lemma NoCommandNamed(env: Env, prefix: string, reg: Registry, word: string, rest: string)
    requires Trim(env.text) == "" || (Trim(env.text) == word + rest && IsWord(word) && (rest == "" || IsSpace(rest[0])))
    requires Trim(env.text) != "" ==> NamesNone(env, prefix, reg, word)
    ensures Explicit(env, prefix, reg) == None
  {
    if Trim(env.text) != "" { FirstWord(word, rest); }
  }

  /** A handler that is registered, is in the catalog and matches the message without its name. */
  predicate Takes(env: Env, reg: Registry, id: string) {
    reg.matchesBare(id, Trim(env.text)) && id in reg.handlers * reg.entries
  }

  /** id is the first registered handler that takes the message bare. */
  ghost predicate TakesFirst(env: Env, reg: Registry, ids: seq<string>, id: string) {
    exists k :: 0 <= k < |ids| && ids[k] == id && Takes(env, reg, id) && forall j :: 0 <= j < k ==> !Takes(env, reg, ids[j])
  }

  lemma {:induction false} FirstBareIs(env: Env, reg: Registry, ids: seq<string>)
    ensures FirstBare(env, reg, ids).None? <==> forall k :: 0 <= k < |ids| ==> !Takes(env, reg, ids[k])
    ensures FirstBare(env, reg, ids).Some? ==> TakesFirst(env, reg, ids, FirstBare(env, reg, ids).value)
  {
    assert ids != [] ==> (TakesBare(env, reg, ids[0]) <==> Takes(env, reg, ids[0]));
    if ids != [] && !Takes(env, reg, ids[0]) {
      FirstBareIs(env, reg, ids[1..]);
      var rest := ids[1..];
      if FirstBare(env, reg, rest).Some? {
        var id := FirstBare(env, reg, rest).value;
        var k :| 0 <= k < |rest| && rest[k] == id && Takes(env, reg, id) && forall j :: 0 <= j < k ==> !Takes(env, reg, rest[j]);
        assert ids[k + 1] == id;
        forall j | 0 <= j < k + 1 ensures !Takes(env, reg, ids[j]) {
          assert j == 0 || ids[j] == rest[j - 1];
        }
      } else {
        forall k | 0 <= k < |ids| ensures !Takes(env, reg, ids[k]) {
          assert k == 0 || ids[k] == rest[k - 1];
        }
      }
    }
  }

  /** The message is not empty and does not start with the prefix. */
  predicate Bare(env: Env, prefix: string) {
    Trim(env.text) != "" && (prefix == "" || !(prefix <= Trim(env.text)))
  }

  predicate IsTheme(env: Env, prefix: string, reg: Registry) {
    Bare(env, prefix) && env.themeShape(Trim(env.text)) && "stock" in reg.entries && "stock" in reg.handlers
  }

  predicate SomeTakes(env: Env, prefix: string, reg: Registry) {
    Bare(env, prefix) && env.bareShape(Trim(env.text)) && exists id :: id in reg.order && Takes(env, reg, id)
  }

  /** A theme runs the stock command; otherwise the first handler that takes the message bare runs;
      and if none does the fallbacks are tried. */
  lemma ImpliedCommandRuns(env: Env, n: nat, prefix: string, reg: Registry)
    requires !Ignored(env, prefix) && Explicit(env, prefix, reg) == None
    ensures IsTheme(env, prefix, reg) ==> OnlyRuns(env, n, "stock", DispatchRun(env, n, prefix, reg))
    ensures !IsTheme(env, prefix, reg) && SomeTakes(env, prefix, reg) ==>
              exists id :: TakesFirst(env, reg, reg.order, id) && OnlyRuns(env, n, id, DispatchRun(env, n, prefix, reg))
    ensures !IsTheme(env, prefix, reg) && !SomeTakes(env, prefix, reg) ==>
              DispatchRun(env, n, prefix, reg)
              == Run([Received] + FallbackRun(env, n + 1, reg).steps, FallbackRun(env, n + 1, reg).result)
  {
    FirstBareIs(env, reg, reg.order);
    if !IsTheme(env, prefix, reg) && SomeTakes(env, prefix, reg) {
      var id := FirstBare(env, reg, reg.order).value;
      assert OnlyRuns(env, n, id, DispatchRun(env, n, prefix, reg));
    }
  }

  // ---------- fallbacks ----------

  lemma {:induction false} OfScopeIsPart(fallbacks: seq<Fallback>, scope: Scope)
    ensures IsPart(fallbacks, (f: Fallback) => f.scope == scope, OfScope(fallbacks, scope))
  {
    var wanted := (f: Fallback) => f.scope == scope;
    if fallbacks == [] {
      NoPart(wanted);
    } else {
      var n := |fallbacks| - 1;
      OfScopeIsPart(fallbacks[..n], scope);
      PartAppend(fallbacks[..n], fallbacks[n], wanted, OfScope(fallbacks[..n], scope));
      assert fallbacks[..n] + [fallbacks[n]] == fallbacks;
    }
  }

  lemma {:induction false} CandidatesIsPart(env: Env, reg: Registry, fallbacks: seq<Fallback>)
    ensures IsPart(fallbacks, (f: Fallback) => reg.matchesAuto(f.id, env.text), Candidates(env, reg, fallbacks))
  {
    var wanted := (f: Fallback) => reg.matchesAuto(f.id, env.text);
    if fallbacks == [] {
      NoPart(wanted);
    } else {
      var n := |fallbacks| - 1;
      CandidatesIsPart(env, reg, fallbacks[..n]);
      PartAppend(fallbacks[..n], fallbacks[n], wanted, Candidates(env, reg, fallbacks[..n]));
      assert fallbacks[..n] + [fallbacks[n]] == fallbacks;
    }
  }

  lemma {:induction false} AllowedByIsPart(p: Policy, fallbacks: seq<Fallback>)
    ensures IsPart(fallbacks, (f: Fallback) => p.allows(f.id), AllowedBy(p, fallbacks))
  {
    var wanted := (f: Fallback) => p.allows(f.id);
    if fallbacks == [] {
      NoPart(wanted);
    } else {
      var n := |fallbacks| - 1;
      AllowedByIsPart(p, fallbacks[..n]);
      PartAppend(fallbacks[..n], fallbacks[n], wanted, AllowedBy(p, fallbacks[..n]));
      assert fallbacks[..n] + [fallbacks[n]] == fallbacks;
    }
  }

  /** What stops a stage is an error only if it is one. */
  function ErrorOf(stop: Outcome): Outcome {
    match stop
    case Fault => Fault
    case Handled => Quiet
    case Quiet => Quiet
  }

  /** A stage's fallbacks were visited in order until one answered (see StageIs). */
  ghost predicate Visited(env: Env, n: nat, fallbacks: seq<Fallback>, s: Stage) {
    && StageIs(env, n, fallbacks, s)
    && (s.denied <==> exists i :: 0 <= i < |s.steps| && s.steps[i].DenyFall?)
  }

  lemma StageVisited(env: Env, n: nat, fallbacks: seq<Fallback>)
    ensures Visited(env, n, fallbacks, StageRun(env, n, fallbacks))
  {
    StageMeaning(env, n, fallbacks);
    DeniedIff(env, n, fallbacks);
  }

  /** The list is told by what is wanted on it. */
  lemma SameList<T>(all: seq<T>, wanted: T -> bool, p: seq<T>, q: seq<T>)
    requires IsPart(all, wanted, p) && IsPart(all, wanted, q)
    ensures p == q
  {
    PartIsUnique(all, wanted, p, q);
  }

  /** Main result: the deterministic fallbacks, in the order registered, are visited until one answers;
      its error comes back, and if one was denied nothing follows. Only otherwise come the automatic
      ones: without any the message is unmatched, and when their policy cannot be read that is the
      error. */
  lemma DeterministicOutcome(env: Env, n: nat, reg: Registry, det: seq<Fallback>) returns (s: Stage)
    requires IsPart(reg.fallbacks, (f: Fallback) => f.scope == Deterministic, det)
    ensures Visited(env, n, det, s)
    ensures var r := FallbackRun(env, n, reg);
            if s.stop.Some? then r == Run(s.steps, ErrorOf(s.stop.value))
            else if s.denied then r == Run(s.steps, Quiet)
            else if forall f :: f in reg.fallbacks ==> f.scope != Automatic then r == Run(s.steps + [Unmatched], Quiet)
            else if env.policy.None? then r == Run(s.steps, Fault)
            else r == After(s.steps, AutomaticRun(env, n + |s.steps|, reg, env.policy.value))
  {
    DeterministicIs(reg, det);
    s := StageRun(env, n, det);
    StageVisited(env, n, det);
    NoneOfScope(reg.fallbacks, Automatic);
    AfterStage(env, n, reg, s);
  }

  lemma DeterministicIs(reg: Registry, det: seq<Fallback>)
    requires IsPart(reg.fallbacks, (f: Fallback) => f.scope == Deterministic, det)
    ensures det == OfScope(reg.fallbacks, Deterministic)
  {
    OfScopeIsPart(reg.fallbacks, Deterministic);
    SameList(reg.fallbacks, (f: Fallback) => f.scope == Deterministic, det, OfScope(reg.fallbacks, Deterministic));
  }

  lemma AfterStage(env: Env, n: nat, reg: Registry, s: Stage)
    requires s == StageRun(env, n, OfScope(reg.fallbacks, Deterministic))
    ensures var r := FallbackRun(env, n, reg);
            if s.stop.Some? then r == Run(s.steps, ErrorOf(s.stop.value))
            else if s.denied then r == Run(s.steps, Quiet)
            else if OfScope(reg.fallbacks, Automatic) == [] then r == Run(s.steps + [Unmatched], Quiet)
            else if env.policy.None? then r == Run(s.steps, Fault)
            else r == After(s.steps, AutomaticRun(env, n + |s.steps|, reg, env.policy.value))
  {
    assert s.steps + [] == s.steps;
  }

  lemma {:induction false} NoneOfScope(fallbacks: seq<Fallback>, scope: Scope)
    ensures OfScope(fallbacks, scope) == [] <==> forall f :: f in fallbacks ==> f.scope != scope
  {
    OfScopeIsPart(fallbacks, scope);
    var part := OfScope(fallbacks, scope);
    forall f: Fallback ensures f in part <==> f in fallbacks && f.scope == scope {
      PartHas(fallbacks, (f: Fallback) => f.scope == scope, part, f);
    }
    if part != [] { assert part[0] in part; }
  }

  /** Main result: of the automatic fallbacks those that match the message are candidates. Without one,
      or without the shape of an automatic query, the message is unmatched; without a policy that lets
      automatic queries run, or with a verdict against this one, it is skipped; a verdict that could not
      be had is the error. Otherwise the candidates the policy allows, in the order registered, are
      visited until one answers. */
  lemma AutomaticOutcome(env: Env, n: nat, reg: Registry, p: Policy, auto: seq<Fallback>, candidates: seq<Fallback>, allowed: seq<Fallback>)
      returns (s: Stage)
    requires IsPart(reg.fallbacks, (f: Fallback) => f.scope == Automatic, auto)
    requires IsPart(auto, (f: Fallback) => reg.matchesAuto(f.id, env.text), candidates)
    requires IsPart(candidates, (f: Fallback) => p.allows(f.id), allowed)
    ensures Visited(env, n, allowed, s)
    ensures var r := AutomaticRun(env, n, reg, p);
            if !env.autoShape(Trim(env.text)) || candidates == [] then r == Run([Unmatched], Quiet)
            else if !p.localAuto then r == Run([PolicySkip], Quiet)
            else if env.verdict.None? then r == Run([], Fault)
            else if env.verdict == Some(false) then r == Run([PolicySkip], Quiet)
            else if s.stop.Some? then r == Run(s.steps, ErrorOf(s.stop.value))
            else if s.denied then r == Run(s.steps, Quiet)
            else r == Run(s.steps + [Unmatched], Quiet)
  {
    OfScopeIsPart(reg.fallbacks, Automatic);
    SameList(reg.fallbacks, (f: Fallback) => f.scope == Automatic, auto, OfScope(reg.fallbacks, Automatic));
    CandidatesIsPart(env, reg, auto);
    SameList(auto, (f: Fallback) => reg.matchesAuto(f.id, env.text), candidates, Candidates(env, reg, auto));
    AllowedByIsPart(p, candidates);
    SameList(candidates, (f: Fallback) => p.allows(f.id), allowed, AllowedBy(p, candidates));
    s := StageRun(env, n, allowed);
    StageVisited(env, n, allowed);
  }
}
