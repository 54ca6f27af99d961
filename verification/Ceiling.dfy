/**
 The derived time ceiling of a brain's handler: per dispatch shape, per agent iteration, and the
 router's maximum or the operator's override of it.

 Durations are nanoseconds without Go's 64-bit bound; a configured duration that does not parse as a
 positive one is 0.
 */
module Ceiling {
  import opened Prelude

  const MILLISECOND: int := 1_000_000
  const SECOND: int := 1000 * MILLISECOND
  const MARGIN: int := 500 * MILLISECOND
  const MAX_BACKOFF_PER_WAIT: int := 2 * SECOND
  const MAX_CALLS_PER_TURN: nat := 8
  const DEFAULT_ITERATIONS: int := 5
  const DEFAULT_REQUEST_TIMEOUT: int := 120 * SECOND

  datatype Model = Model(requestTimeout: nat, locality: string, maxRetries: int)

  datatype Agent = Agent(maxIterations: int, tools: seq<string>)

  datatype Brain = Brain(agent: Option<Agent>, models: seq<Model>, sensitivity: string, dispatch: string,
      retry: Option<bool>)

  datatype Override = NoOverride | Unparsable | Wanted(duration: int)

  datatype Config = Config(brains: seq<Brain>, requestTimeout: nat, handlerTimeout: Override)

  datatype CeilingError = BadOverride | OverrideTooLow

  // ---- What each part stands for ----

  /** EffectiveRequestTimeout: the model's own window, else the configuration's, else the default. */
  function Window(cfg: Config, m: Model): (r: int)
    ensures r > 0 && (m.requestTimeout > 0 ==> r == m.requestTimeout)
    ensures m.requestTimeout == 0 && cfg.requestTimeout > 0 ==> r == cfg.requestTimeout
  {
    if m.requestTimeout > 0 then m.requestTimeout
    else if cfg.requestTimeout > 0 then cfg.requestTimeout
    else DEFAULT_REQUEST_TIMEOUT
  }

  /** The hard bound of one tool. */
  function ToolBound(name: string): int {
    if name == "http_fetch" then 30 * SECOND else if name == "webhook_call" then 10 * SECOND else SECOND
  }

  ghost predicate IsMax(m: int, xs: seq<int>) {
    (forall i :: 0 <= i < |xs| ==> xs[i] <= m) && if exists i :: 0 <= i < |xs| && xs[i] > 0 then m in xs else m == 0
  }

  function Sum(xs: seq<int>): int { if xs == [] then 0 else Sum(xs[..|xs| - 1]) + xs[|xs| - 1] }

  function Iterations(a: Agent): (r: int)
    ensures r > 0
  { if a.maxIterations <= 0 then DEFAULT_ITERATIONS else a.maxIterations }

  /** The models the privacy selector keeps. */
  predicate Eligible(b: Brain, m: Model) {
    && (m.locality == "local" || m.locality == "cloud")
    && (b.sensitivity == "public" || (b.sensitivity == "private" && m.locality == "local"))
  }

  function Retries(b: Brain, m: Model): (r: int)
    ensures b.dispatch == "sequential" || b.retry == Some(false) ==> r == 0
    ensures b.dispatch != "sequential" && b.retry != Some(false) ==> r == m.maxRetries
  {
    if b.dispatch == "sequential" || b.retry == Some(false) then 0 else m.maxRetries
  }

  /** The widest bound among the listed tools, once per call of a full turn. */
  ghost predicate IsToolBudget(tools: seq<string>, budget: int) {
    exists worst :: budget == MAX_CALLS_PER_TURN * worst &&
        IsMax(worst, seq(|tools|, i requires 0 <= i < |tools| => ToolBound(tools[i])))
  }

  // ---- The derivation ----

  datatype Shape = FanOut | Sequential | AgentShape

  method DeriveBrainCeiling(shape: Shape, perAttempt: seq<int>, backoff: seq<int>, iterations: int, perTool: int,
    margin: int)
    returns (ceiling: int)
    ensures shape == FanOut ==>
              IsMax(ceiling - margin, seq(|perAttempt|, i requires 0 <= i < |perAttempt| =>
                                                          perAttempt[i] + if i < |backoff| then backoff[i] else 0))
    ensures shape == Sequential ==> ceiling == Sum(perAttempt) + margin
    ensures shape == AgentShape ==>
              ceiling == iterations * ((if perAttempt == [] then 0 else perAttempt[0]) + perTool) + margin
  {
    match shape
    case FanOut =>
      var worst := 0;
      ghost var costs := seq(|perAttempt|, i requires 0 <= i < |perAttempt| =>
                                             perAttempt[i] + if i < |backoff| then backoff[i] else 0);
      for i := 0 to |perAttempt|
        invariant IsMax(worst, costs[..i])
      {
        var c := perAttempt[i] + if i < |backoff| then backoff[i] else 0;
        MaxMore(worst, costs, i);
        if c > worst {
          worst := c;
        }
      }
      assert costs[..|perAttempt|] == costs;
      ceiling := worst + margin;
    case Sequential =>
      var sum := 0;
      for i := 0 to |perAttempt|
        invariant sum == Sum(perAttempt[..i])
      {
        sum := sum + perAttempt[i];
        assert perAttempt[..i + 1][..i] == perAttempt[..i];
      }
      assert perAttempt[..|perAttempt|] == perAttempt;
      ceiling := sum + margin;
    case AgentShape =>
      var per := if perAttempt == [] then 0 else perAttempt[0];
      ceiling := iterations * (per + perTool) + margin;
  }

  /** A running maximum that starts at zero. */
  lemma MaxMore(worst: int, xs: seq<int>, i: nat)
    requires i < |xs| && IsMax(worst, xs[..i])
    ensures IsMax(if xs[i] > worst then xs[i] else worst, xs[..i + 1])
  {
    var more, m := xs[..i + 1], if xs[i] > worst then xs[i] else worst;
    assert more == xs[..i] + [xs[i]];
    forall k | 0 <= k < |more| ensures more[k] <= m {
      assert k < i ==> more[k] == xs[..i][k];
    }
    if exists k :: 0 <= k < |more| && more[k] > 0 {
      if xs[i] > worst {
        assert more[i] == xs[i];
      } else {
        var k :| 0 <= k < |more| && more[k] > 0;
        assert k == i ==> worst > 0;
        assert k < i ==> xs[..i][k] > 0;
        var j :| 0 <= j < i && xs[..i][j] == worst;
        assert more[j] == worst;
      }
    } else {
      assert more[i] <= 0;
      assert forall k :: 0 <= k < i ==> xs[..i][k] == more[k];
    }
  }

  method AgentToolBudget(tools: seq<string>) returns (budget: int)
    ensures IsToolBudget(tools, budget) && budget >= 0
  {
    ghost var bounds := seq(|tools|, i requires 0 <= i < |tools| => ToolBound(tools[i]));
    var worst := 0;
    for i := 0 to |tools|
      invariant IsMax(worst, bounds[..i]) && worst >= 0
    {
      MaxMore(worst, bounds, i);
      var bound := SECOND;
      if tools[i] == "http_fetch" {
        bound := 30 * SECOND;
      } else if tools[i] == "webhook_call" {
        bound := 10 * SECOND;
      }
      if bound > worst {
        worst := bound;
      }
    }
    assert bounds[..|tools|] == bounds;
    budget := MAX_CALLS_PER_TURN * worst;
  }

  predicate FirstEligibleAt(b: Brain, i: int) {
    0 <= i < |b.models| && Eligible(b, b.models[i]) && forall k :: 0 <= k < i ==> !Eligible(b, b.models[k])
  }

  /** The first eligible model, or the first model when none is. */
  ghost predicate IsAgentModel(b: Brain, m: Model) {
    if exists i :: FirstEligibleAt(b, i) then exists i :: FirstEligibleAt(b, i) && m == b.models[i]
    else b.models != [] && m == b.models[0]
  }

  /** The model whose window an agent's ceiling counts: the first the selector keeps, else the first. */
  method AgentModel(b: Brain) returns (m: Model)
    requires b.models != []
    ensures IsAgentModel(b, m)
  {
    m := b.models[0];
    for i := 0 to |b.models|
      invariant forall k :: 0 <= k < i ==> !Eligible(b, b.models[k])
    {
      if Eligible(b, b.models[i]) {
        assert FirstEligibleAt(b, i);
        return b.models[i];
      }
    }
  }

  /** What a brain's handler may legitimately take. */
  ghost predicate IsBrainCeiling(cfg: Config, b: Brain, ceiling: int) {
    match b.agent
    case Some(a) =>
      exists m, budget :: AgentParts(cfg, b, a, m, budget) &&
          ceiling == Iterations(a) * (AgentWindow(cfg, b, m) + budget) + MARGIN
    case None =>
      if b.dispatch == "sequential"
      then ceiling == Sum(seq(|b.models|, i requires 0 <= i < |b.models| => Window(cfg, b.models[i]))) + MARGIN
      else IsMax(ceiling - MARGIN,
                 seq(|b.models|, i requires 0 <= i < |b.models| =>
                                   Window(cfg, b.models[i]) + Retries(b, b.models[i]) * MAX_BACKOFF_PER_WAIT))
  }

  /** The window of the agent's one model; of a brain without models, that of an empty model. */
  function AgentWindow(cfg: Config, b: Brain, m: Model): int {
    if b.models == [] then Window(cfg, Model(0, "", 0)) else Window(cfg, m)
  }

  ghost predicate AgentParts(cfg: Config, b: Brain, a: Agent, m: Model, budget: int) {
    && IsToolBudget(a.tools, budget)
    && (b.models != [] ==> IsAgentModel(b, m))
  }

  method CeilingForBrain(cfg: Config, b: Brain) returns (ceiling: int)
    ensures IsBrainCeiling(cfg, b, ceiling)
  {
    hide Window, Retries, IsMax, Sum, IsToolBudget;
    if b.agent.Some? {
      var m := Model(0, "", 0);
      if b.models != [] {
        m := AgentModel(b);
      }
      var budget := AgentToolBudget(b.agent.value.tools);
      ceiling := DeriveBrainCeiling(AgentShape, [Window(cfg, m)], [], Iterations(b.agent.value), budget, MARGIN);
      assert AgentParts(cfg, b, b.agent.value, m, budget);
      return;
    }
    var perAttempt, backoff := [], [];
    for i := 0 to |b.models|
      invariant |perAttempt| == |backoff| == i
      invariant forall k :: 0 <= k < i ==> perAttempt[k] == Window(cfg, b.models[k])
      invariant forall k :: 0 <= k < i ==> backoff[k] == Retries(b, b.models[k]) * MAX_BACKOFF_PER_WAIT
    {
      perAttempt := perAttempt + [Window(cfg, b.models[i])];
      backoff := backoff + [Retries(b, b.models[i]) * MAX_BACKOFF_PER_WAIT];
    }
    var shape := if b.dispatch == "sequential" then Sequential else FanOut;
    ceiling := DeriveBrainCeiling(shape, perAttempt, backoff, 0, 0, MARGIN);
    if shape == Sequential {
      assert perAttempt == seq(|b.models|, i requires 0 <= i < |b.models| => Window(cfg, b.models[i]));
    } else {
      assert seq(|perAttempt|, i requires 0 <= i < |perAttempt| =>
                                 perAttempt[i] + if i < |backoff| then backoff[i] else 0)
          == seq(|b.models|, i requires 0 <= i < |b.models| =>
                               Window(cfg, b.models[i]) + Retries(b, b.models[i]) * MAX_BACKOFF_PER_WAIT);
    }
  }

  /** The router's ceiling covers every brain's; an override is honoured exactly when it covers them too. */
  method DeriveRouterCeiling(cfg: Config) returns (r: Result<int, CeilingError>, ghost ceilings: seq<int>)
    ensures |ceilings| == |cfg.brains| && forall i :: 0 <= i < |ceilings| ==>
            IsBrainCeiling(cfg, cfg.brains[i], ceilings[i])
    ensures cfg.handlerTimeout == NoOverride ==> r.Ok? && IsMax(r.value, ceilings)
    ensures cfg.handlerTimeout == Unparsable ==> r == Err(BadOverride)
    ensures cfg.handlerTimeout.Wanted? ==>
              r == if cfg.handlerTimeout.duration >= 0 && forall i :: 0 <= i < |ceilings| ==>
                  ceilings[i] <= cfg.handlerTimeout.duration
                   then Ok(cfg.handlerTimeout.duration) else Err(OverrideTooLow)
  {
    hide IsBrainCeiling;
    var maxCeiling := 0;
    ceilings := [];
    for i := 0 to |cfg.brains|
      invariant |ceilings| == i && forall k :: 0 <= k < i ==> IsBrainCeiling(cfg, cfg.brains[k], ceilings[k])
      invariant IsMax(maxCeiling, ceilings) && maxCeiling >= 0
    {
      var c := CeilingForBrain(cfg, cfg.brains[i]);
      ghost var more := ceilings + [c];
      assert more[..i] == ceilings && more[..i + 1] == more;
      MaxMore(maxCeiling, more, i);
      ceilings := more;
      if c > maxCeiling {
        maxCeiling := c;
      }
    }
    match cfg.handlerTimeout
    case NoOverride => r := Ok(maxCeiling);
    case Unparsable => r := Err(BadOverride);
    case Wanted(d) =>
      if d < maxCeiling {
        r := Err(OverrideTooLow);
      } else {
        r := Ok(d);
      }
  }

  /** An agent brain has one eligible model, and its ceiling counts that one's window. */
  lemma OneEligible(b: Brain, m: Model, x: Model)
    requires m in b.models && forall y :: y in b.models ==> (Eligible(b, y) <==> y == m)
    requires IsAgentModel(b, x)
    ensures x == m
  {
    assert b.models[0..] == b.models;
    FirstExists(b, m, 0);
    var i :| FirstEligibleAt(b, i) && x == b.models[i];
    assert b.models[i] in b.models;
  }

  /** A private brain with a local model never has another one asked, whatever comes first in its list. */
  lemma PrivateStaysLocal(b: Brain, m: Model, x: Model)
    requires b.sensitivity == "private" && m in b.models && m.locality == "local" && IsAgentModel(b, x)
    ensures x in b.models && x.locality == "local"
  {
    assert b.models[0..] == b.models;
    assert "private"[1] != "public"[1];
    FirstExists(b, m, 0);
    var i :| FirstEligibleAt(b, i) && x == b.models[i];
  }

  lemma {:induction false} FirstExists(b: Brain, m: Model, from: nat)
    requires Eligible(b, m) && from <= |b.models| && m in b.models[from..]
    requires forall k :: 0 <= k < from ==> !Eligible(b, b.models[k])
    ensures exists i :: FirstEligibleAt(b, i)
    decreases |b.models| - from
  {
    if Eligible(b, b.models[from]) {
      assert FirstEligibleAt(b, from);
    } else {
      assert b.models[from..] == [b.models[from]] + b.models[from + 1..];
      FirstExists(b, m, from + 1);
    }
  }
}
