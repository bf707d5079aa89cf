/** Fault schedules of the simulated network (crates/chirps-mock/src/deterministic.rs). */
module Faults {
  import opened Prelude

  datatype Link = Link(source: NodeId, target: NodeId)

  datatype FaultEffect = Delay(ticks: nat) | Drop | Duplicate(copies: nat) | Reorder(extraTicks: nat)

  datatype FaultRule = FaultRule(link: Link, occurrence: nat, effects: seq<FaultEffect>)

  datatype FaultSchedule = FaultSchedule(schema: string, seed: nat, version: nat, rules: seq<FaultRule>)
}

/**
 The delta-debugging minimizer `minimize_schedule`: drop chunks of rules at
 growing granularity, then single rules, then single effects.
 */
module Minimizer {
  import opened Prelude
  import opened Faults

  function RemoveAt<T>(s: seq<T>, i: nat): (r: seq<T>)
    requires i < |s|
    ensures |r| == |s| - 1
  {
    s[..i] + s[i + 1..]
  }

  function WithoutRule(s: FaultSchedule, i: nat): FaultSchedule
    requires i < |s.rules|
  {
    s.(rules := RemoveAt(s.rules, i))
  }

  function WithoutEffect(s: FaultSchedule, i: nat, j: nat): FaultSchedule
    requires i < |s.rules| && j < |s.rules[i].effects|
  {
    s.(rules := s.rules[i := s.rules[i].(effects := RemoveAt(s.rules[i].effects, j))])
  }

  // ---------------------------------------------------- the sub-schedule order

  /** `a` is a subsequence of `b`. */
  ghost predicate SubEffects(a: seq<FaultEffect>, b: seq<FaultEffect>)
    decreases |b|
  {
    a == [] || (b != [] && ((a[0] == b[0] && SubEffects(a[1..], b[1..])) || SubEffects(a, b[1..])))
  }

  ghost predicate SubRule(r: FaultRule, r': FaultRule) {
    r.link == r'.link && r.occurrence == r'.occurrence && SubEffects(r.effects, r'.effects)
  }

  /** `a` is a subsequence of `b` whose rules keep subsequences of their effects. */
  ghost predicate SubRules(a: seq<FaultRule>, b: seq<FaultRule>)
    decreases |b|
  {
    a == [] || (b != [] && ((SubRule(a[0], b[0]) && SubRules(a[1..], b[1..])) || SubRules(a, b[1..])))
  }

  ghost predicate SubSchedule(a: FaultSchedule, b: FaultSchedule) {
    a.schema == b.schema && a.seed == b.seed && a.version == b.version && SubRules(a.rules, b.rules)
  }

  lemma {:induction false} SubEffectsReflexive(a: seq<FaultEffect>)
    ensures SubEffects(a, a)
    decreases |a|
  {
    if a != [] { SubEffectsReflexive(a[1..]); }
  }

  lemma {:induction false} SubEffectsTransitive(a: seq<FaultEffect>, b: seq<FaultEffect>, c: seq<FaultEffect>)
    requires SubEffects(a, b) && SubEffects(b, c)
    ensures SubEffects(a, c)
    decreases |b| + |c|
  {
    if a == [] || b == [] {
    } else if b[0] == c[0] && SubEffects(b[1..], c[1..]) {
      if a[0] == b[0] && SubEffects(a[1..], b[1..]) {
        SubEffectsTransitive(a[1..], b[1..], c[1..]);
      } else {
        SubEffectsTransitive(a, b[1..], c[1..]);
      }
    } else {
      SubEffectsTransitive(a, b, c[1..]);
    }
  }

  lemma {:induction false} SubEffectsRemove(a: seq<FaultEffect>, j: nat)
    requires j < |a|
    ensures SubEffects(RemoveAt(a, j), a)
    decreases |a|
  {
    if j == 0 {
      assert RemoveAt(a, j) == a[1..];
      SubEffectsReflexive(a[1..]);
    } else {
      SubEffectsRemove(a[1..], j - 1);
      assert RemoveAt(a, j)[1..] == RemoveAt(a[1..], j - 1);
    }
  }

  lemma {:induction false} SubRulesTransitive(a: seq<FaultRule>, b: seq<FaultRule>, c: seq<FaultRule>)
    requires SubRules(a, b) && SubRules(b, c)
    ensures SubRules(a, c)
    decreases |b| + |c|
  {
    if a == [] || b == [] {
    } else if SubRule(b[0], c[0]) && SubRules(b[1..], c[1..]) {
      if SubRule(a[0], b[0]) && SubRules(a[1..], b[1..]) {
        SubEffectsTransitive(a[0].effects, b[0].effects, c[0].effects);
        SubRulesTransitive(a[1..], b[1..], c[1..]);
      } else {
        SubRulesTransitive(a, b[1..], c[1..]);
      }
    } else {
      SubRulesTransitive(a, b, c[1..]);
    }
  }

  /** The same rules one by one, each with some of its effects. */
  ghost predicate Pointwise(a: seq<FaultRule>, b: seq<FaultRule>) {
    |a| == |b| && forall i | 0 <= i < |a| :: SubRule(a[i], b[i])
  }

  lemma {:induction false} PointwiseIsSub(a: seq<FaultRule>, b: seq<FaultRule>)
    requires Pointwise(a, b)
    ensures SubRules(a, b)
    decreases |a|
  {
    if a != [] { PointwiseIsSub(a[1..], b[1..]); }
  }

  lemma PointwiseReflexive(a: seq<FaultRule>)
    ensures Pointwise(a, a)
  {
    forall i | 0 <= i < |a| ensures SubRule(a[i], a[i]) { SubEffectsReflexive(a[i].effects); }
  }

  lemma PointwiseTransitive(a: seq<FaultRule>, b: seq<FaultRule>, c: seq<FaultRule>)
    requires Pointwise(a, b) && Pointwise(b, c)
    ensures Pointwise(a, c)
  {
    forall i | 0 <= i < |a|
      ensures SubRule(a[i], c[i])
    {
      assert SubRule(a[i], b[i]) && SubRule(b[i], c[i]);
      SubEffectsTransitive(a[i].effects, b[i].effects, c[i].effects);
    }
  }

  lemma PointwiseRemove(a: seq<FaultRule>, b: seq<FaultRule>, i: nat)
    requires Pointwise(a, b) && i < |a|
    ensures Pointwise(RemoveAt(a, i), RemoveAt(b, i))
  {
    forall k | 0 <= k < |a| - 1
      ensures SubRule(RemoveAt(a, i)[k], RemoveAt(b, i)[k])
    {
      var k' := if k < i then k else k + 1;
      assert RemoveAt(a, i)[k] == a[k'] && RemoveAt(b, i)[k] == b[k'];
    }
  }

  /** Cutting out a block of rules gives a sub-schedule. */
  lemma {:induction false} SubRulesCut(a: seq<FaultRule>, start: nat, end: nat)
    requires start <= end <= |a|
    ensures SubRules(a[..start] + a[end..], a)
    decreases |a|
  {
    if start > 0 {
      SubRulesCut(a[1..], start - 1, end - 1);
      assert (a[..start] + a[end..])[1..] == a[1..][..start - 1] + a[1..][end - 1..];
      SubEffectsReflexive(a[0].effects);
    } else if end > 0 {
      SubRulesCut(a[1..], 0, end - 1);
      assert a[..0] + a[end..] == a[1..][..0] + a[1..][end - 1..];
    } else {
      assert a[..0] + a[0..] == a;
      PointwiseReflexive(a);
      PointwiseIsSub(a, a);
    }
  }

  lemma EffectRemovedPointwise(a: seq<FaultRule>, i: nat, j: nat)
    requires i < |a| && j < |a[i].effects|
    ensures Pointwise(a[i := a[i].(effects := RemoveAt(a[i].effects, j))], a)
  {
    var b := a[i := a[i].(effects := RemoveAt(a[i].effects, j))];
    forall k | 0 <= k < |a|
      ensures SubRule(b[k], a[k])
    {
      if k == i { SubEffectsRemove(a[i].effects, j); } else { SubEffectsReflexive(a[k].effects); }
    }
  }

  // -------------------------------------------------------------- the minimizer

  /** Every schedule that contains a failing one fails. */
  ghost predicate Monotone(fails: FaultSchedule -> bool) {
    forall a, b :: fails(a) && SubSchedule(a, b) ==> fails(b)
  }

  ghost predicate EffectMinimal(fails: FaultSchedule -> bool, s: FaultSchedule) {
    forall i, j | 0 <= i < |s.rules| && 0 <= j < |s.rules[i].effects| :: !fails(WithoutEffect(s, i, j))
  }

  ghost predicate RuleMinimal(fails: FaultSchedule -> bool, s: FaultSchedule) {
    forall i | 0 <= i < |s.rules| :: !fails(WithoutRule(s, i))
  }

  ghost function CountEffects(rules: seq<FaultRule>): nat {
    if rules == [] then 0 else |rules[0].effects| + CountEffects(rules[1..])
  }

  lemma {:induction false} CountEffectsRemove(a: seq<FaultRule>, i: nat, j: nat)
    requires i < |a| && j < |a[i].effects|
    ensures CountEffects(a[i := a[i].(effects := RemoveAt(a[i].effects, j))]) == CountEffects(a) - 1
    decreases |a|
  {
    if i > 0 {
      CountEffectsRemove(a[1..], i - 1, j);
      assert a[i := a[i].(effects := RemoveAt(a[i].effects, j))][1..]
          == a[1..][i - 1 := a[i].(effects := RemoveAt(a[i].effects, j))];
    }
  }

  /** First phase: cut chunks of rules, doubling the granularity when none can go. */
  method CutChunks(schedule: FaultSchedule, fails: FaultSchedule -> bool) returns (current: FaultSchedule)
    requires fails(schedule)
    ensures fails(current) && SubSchedule(current, schedule)
  {
    current := schedule;
    PointwiseReflexive(schedule.rules);
    PointwiseIsSub(schedule.rules, schedule.rules);
    var granularity := 2;
    while |current.rules| >= 2
      invariant fails(current) && SubSchedule(current, schedule)
      invariant granularity >= 2
      decreases |current.rules|, if granularity < |current.rules| then |current.rules| - granularity else 0
    {
      ghost var before := current;
      var chunk := CeilDiv(|current.rules|, granularity);
      var reduced := false;
      var start := 0;
      while start < |current.rules|
        invariant fails(current) && SubSchedule(current, schedule)
        invariant granularity >= 2 && !reduced && current == before
        invariant 0 <= start <= |current.rules|
      {
        var end := if start + chunk <= |current.rules| then start + chunk else |current.rules|;
        var candidate := current.(rules := current.rules[..start] + current.rules[end..]);
        if fails(candidate) {
          SubRulesCut(current.rules, start, end);
          SubRulesTransitive(candidate.rules, current.rules, schedule.rules);
          current := candidate;
          granularity := if granularity - 1 >= 2 then granularity - 1 else 2;
          reduced := true;
          break;
        }
        start := end;
      }
      if !reduced {
        if granularity >= |current.rules| {
          break;
        }
        granularity := if granularity * 2 <= |current.rules| then granularity * 2 else |current.rules|;
      }
    }
  }

  /** Second phase: remove single rules until none can go. */
  method RemoveRules(schedule: FaultSchedule, fails: FaultSchedule -> bool) returns (current: FaultSchedule)
    requires fails(schedule)
    ensures fails(current) && SubSchedule(current, schedule) && RuleMinimal(fails, current)
  {
    current := schedule;
    PointwiseReflexive(schedule.rules);
    PointwiseIsSub(schedule.rules, schedule.rules);
    var reduced := true;
    while reduced
      invariant fails(current) && SubSchedule(current, schedule)
      invariant !reduced ==> RuleMinimal(fails, current)
      decreases |current.rules|, reduced
    {
      reduced := false;
      ghost var before := current;
      for index := 0 to |current.rules|
        invariant current == before && !reduced
        invariant forall i | 0 <= i < index :: !fails(WithoutRule(current, i))
      {
        var candidate := WithoutRule(current, index);
        if fails(candidate) {
          SubRulesCut(current.rules, index, index + 1);
          SubRulesTransitive(candidate.rules, current.rules, schedule.rules);
          current := candidate;
          reduced := true;
          break;
        }
      }
    }
  }

  /** Third phase: remove single effects until none can go; rules stay in place. */
  method RemoveEffects(schedule: FaultSchedule, fails: FaultSchedule -> bool) returns (current: FaultSchedule)
    requires fails(schedule)
    ensures fails(current) && Pointwise(current.rules, schedule.rules) && EffectMinimal(fails, current)
    ensures current.schema == schedule.schema && current.seed == schedule.seed
    ensures current.version == schedule.version
  {
    current := schedule;
    PointwiseReflexive(schedule.rules);
    var reduced := true;
    while reduced
      invariant fails(current) && Pointwise(current.rules, schedule.rules)
      invariant current == schedule.(rules := current.rules)
      invariant !reduced ==> EffectMinimal(fails, current)
      decreases CountEffects(current.rules), reduced
    {
      reduced := false;
      ghost var before := current;
      var rule := 0;
      while rule < |current.rules| && !reduced
        invariant 0 <= rule <= |current.rules|
        invariant !reduced ==> current == before
        invariant reduced ==> CountEffects(current.rules) < CountEffects(before.rules)
        invariant fails(current) && Pointwise(current.rules, schedule.rules)
        invariant current == schedule.(rules := current.rules)
        invariant !reduced ==> forall i, j | 0 <= i < rule && 0 <= j < |current.rules[i].effects| ::
                                 !fails(WithoutEffect(current, i, j))
        decreases !reduced, |current.rules| - rule
      {
        var effect := 0;
        while effect < |current.rules[rule].effects|
          invariant 0 <= effect <= |current.rules[rule].effects|
          invariant current == before && !reduced
          invariant forall j | 0 <= j < effect :: !fails(WithoutEffect(current, rule, j))
        {
          var candidate := WithoutEffect(current, rule, effect);
          if fails(candidate) {
            CountEffectsRemove(current.rules, rule, effect);
            EffectRemovedPointwise(current.rules, rule, effect);
            PointwiseTransitive(candidate.rules, current.rules, schedule.rules);
            current := candidate;
            reduced := true;
            break;
          }
          effect := effect + 1;
        }
        if !reduced { rule := rule + 1; }
      }
    }
  }

  /** A rule-minimal schedule stays so, for a monotone failure, when effects go. */
  lemma RuleMinimalSurvives(fails: FaultSchedule -> bool, r: FaultSchedule, q: FaultSchedule)
    requires Monotone(fails) && RuleMinimal(fails, q)
    requires Pointwise(r.rules, q.rules) && r == q.(rules := r.rules)
    ensures RuleMinimal(fails, r)
  {
    forall i | 0 <= i < |r.rules|
      ensures !fails(WithoutRule(r, i))
    {
      PointwiseRemove(r.rules, q.rules, i);
      PointwiseIsSub(RemoveAt(r.rules, i), RemoveAt(q.rules, i));
      assert SubSchedule(WithoutRule(r, i), WithoutRule(q, i));
    }
  }

  /** `minimize_schedule`.  It terminates on every schedule and predicate.  A
      schedule that does not fail comes back unchanged; a failing one is reduced to
      a failing sub-schedule that no single effect can leave, and, when the failure
      is monotone, no single rule either. */
  method MinimizeSchedule(schedule: FaultSchedule, fails: FaultSchedule -> bool) returns (r: FaultSchedule)
    ensures !fails(schedule) ==> r == schedule
    ensures fails(schedule) ==> fails(r) && SubSchedule(r, schedule) && EffectMinimal(fails, r)
    ensures fails(schedule) && Monotone(fails) ==> RuleMinimal(fails, r)
  {
    if !fails(schedule) {
      return schedule;
    }
    var chunked := CutChunks(schedule, fails);
    var pruned := RemoveRules(chunked, fails);
    r := RemoveEffects(pruned, fails);
    PointwiseIsSub(r.rules, pruned.rules);
    SubRulesTransitive(r.rules, pruned.rules, chunked.rules);
    SubRulesTransitive(r.rules, chunked.rules, schedule.rules);
    if Monotone(fails) {
      RuleMinimalSurvives(fails, r, pruned);
    }
  }
}
