/** Checkpoint-aware priority: the first-match decision engine, and how its decision moves as time passes. */
module Priority {
  import opened Foundation
  import opened YieldHistory

  const MIN_INT32: int := -0x8000_0000
  const MAX_INT32: int := 0x7fff_ffff
  const MIN_PRIORITY_BOUND: int := -1_000_000_000
  const MAX_PRIORITY_BOUND: int := 1_000_000_000

  datatype Policy = Policy(
    freshnessTarget: int,
    protectionWindow: int,
    minRuntimeBetweenYields: int,
    maxYieldsPerWindow: int,
    yieldWindow: Option<int>,
    failOpenOnTelemetryLoss: bool,
    failOpenOnStoreErrors: bool,
    protectedBoost: int,
    cooldownBoost: int,
    preemptibleOffset: int,
    minEffective: Option<int>,
    maxEffective: Option<int>)

  /** What the engine sees of a job, apart from the clock. Unset boosts and offsets count as zero. */
  datatype Telemetry = Telemetry(
    base: int,
    lastCheckpoint: Option<Time>,
    runStart: Option<Time>,
    lastResume: Option<Time>,
    storeError: bool,
    yielded: seq<Time>)

  datatype DecisionState =
    | Disabled | StartupProtected | YieldBudgetExhausted | CoolingDown
    | TelemetryUnknown | CheckpointStale | Active

  datatype PreemptionState = Unset | Protected | Cooldown | Preemptible | ActiveState

  datatype Decision = Decision(state: DecisionState, preemption: PreemptionState, effective: int)

  // ---- Admission of a policy ----

  predicate WithinBound(v: int) {
    MIN_PRIORITY_BOUND <= v <= MAX_PRIORITY_BOUND
  }

  /** validateCheckpointPriorityPolicy returns no error. */
  predicate ValidPolicy(p: Policy) {
    && p.freshnessTarget > 0 && p.protectionWindow > 0 && p.minRuntimeBetweenYields > 0
    && p.maxYieldsPerWindow >= 0
    && (p.maxYieldsPerWindow > 0 ==> p.yieldWindow.Some? && p.yieldWindow.value > 0)
    && (p.yieldWindow.Some? ==> p.yieldWindow.value > 0)
    && WithinBound(p.protectedBoost) && WithinBound(p.cooldownBoost) && WithinBound(p.preemptibleOffset)
    && (p.minEffective.Some? ==> WithinBound(p.minEffective.value))
    && (p.maxEffective.Some? ==> WithinBound(p.maxEffective.value))
    && (p.minEffective.Some? && p.maxEffective.Some? ==> p.minEffective.value <= p.maxEffective.value)
  }

  // ---- Windows ----

  function ProtectionAnchor(t: Telemetry): Option<Time> {
    if t.runStart.None? then t.lastResume
    else if t.lastResume.None? then t.runStart
    else if t.lastResume.value > t.runStart.value then t.lastResume
    else t.runStart
  }

  predicate WithinProtection(t: Telemetry, p: Policy, now: Time) {
    p.protectionWindow > 0 && ProtectionAnchor(t).Some? && now < ProtectionAnchor(t).value + p.protectionWindow
  }

  function RecentYields(t: Telemetry, p: Policy, now: Time): nat {
    YieldsInWindow(t.yielded, now, if p.yieldWindow.Some? then p.yieldWindow.value else 0)
  }

  predicate BudgetExhausted(t: Telemetry, p: Policy, now: Time) {
    p.maxYieldsPerWindow > 0 && RecentYields(t, p, now) >= p.maxYieldsPerWindow
  }

  predicate WithinCooldown(t: Telemetry, p: Policy, now: Time) {
    t.lastResume.Some? && p.minRuntimeBetweenYields > 0 && now < t.lastResume.value + p.minRuntimeBetweenYields
  }

  /** A checkpoint from the future has age zero. */
  predicate Stale(t: Telemetry, p: Policy, now: Time) {
    && t.lastCheckpoint.Some?
    && (if now < t.lastCheckpoint.value then 0 else now - t.lastCheckpoint.value) > p.freshnessTarget
  }

  // ---- The engine ----

  function AtLeast(x: int, bound: Option<int>): int {
    if bound.Some? && x < bound.value then bound.value else x
  }

  function AtMost(x: int, bound: Option<int>): int {
    if bound.Some? && x > bound.value then bound.value else x
  }

  function Effective(base: int, adjustment: int, lo: Option<int>, hi: Option<int>): int {
    AtMost(AtLeast(AtMost(AtLeast(base + adjustment, lo), hi), Some(MIN_INT32)), Some(MAX_INT32))
  }

  /** computeEffectivePriority clamps a running value, first to the policy's bounds and then to int32. */
  method ComputeEffectivePriority(base: int, adjustment: int, lo: Option<int>, hi: Option<int>) returns (r: int)
    ensures r == Effective(base, adjustment, lo, hi)
    ensures MIN_INT32 <= r <= MAX_INT32
  {
    r := base + adjustment;
    if lo.Some? && r < lo.value { r := lo.value; }
    if hi.Some? && r > hi.value { r := hi.value; }
    if r < MIN_INT32 { r := MIN_INT32; }
    if r > MAX_INT32 { r := MAX_INT32; }
  }

  function Adjusted(t: Telemetry, p: Policy, adjustment: int): int {
    Effective(t.base, adjustment, p.minEffective, p.maxEffective)
  }

  function EvaluateTelemetryUnknown(t: Telemetry, p: Policy): Decision {
    if if t.storeError then p.failOpenOnStoreErrors else p.failOpenOnTelemetryLoss then
      Decision(TelemetryUnknown, ActiveState, Adjusted(t, p, 0))
    else
      Decision(TelemetryUnknown, Preemptible, Adjusted(t, p, p.preemptibleOffset))
  }

  function Evaluate(t: Telemetry, policy: Option<Policy>, now: Time): Decision {
    if policy.None? then Decision(Disabled, Unset, t.base)
    else
      var p := policy.value;
      if WithinProtection(t, p, now) then Decision(StartupProtected, Protected, Adjusted(t, p, p.protectedBoost))
      else if BudgetExhausted(t, p, now) then Decision(YieldBudgetExhausted, Cooldown, Adjusted(t, p, p.cooldownBoost))
      else if WithinCooldown(t, p, now) then Decision(CoolingDown, Cooldown, Adjusted(t, p, p.cooldownBoost))
      else if t.lastCheckpoint.None? then EvaluateTelemetryUnknown(t, p)
      else if Stale(t, p, now) then Decision(CheckpointStale, Preemptible, Adjusted(t, p, p.preemptibleOffset))
      else Decision(Active, ActiveState, Adjusted(t, p, 0))
  }

  // ---- The effective priority ----

  /** The bounds that count: the policy's within int32. */
  predicate InRange(v: int, lo: Option<int>, hi: Option<int>) {
    && MIN_INT32 <= v <= MAX_INT32
    && (lo.Some? ==> lo.value <= v) && (hi.Some? ==> v <= hi.value)
  }

  function Distance(a: int, b: int): nat {
    if a < b then b - a else a - b
  }

  /** Under a valid policy the effective priority is the admissible value nearest to base plus adjustment. */
  lemma EffectiveIsNearest(base: int, adjustment: int, p: Policy, v: int)
    requires ValidPolicy(p) && InRange(v, p.minEffective, p.maxEffective)
    ensures var e := Effective(base, adjustment, p.minEffective, p.maxEffective);
            && InRange(e, p.minEffective, p.maxEffective)
            && (v != e ==> Distance(e, base + adjustment) < Distance(v, base + adjustment))
  {
  }

  /** Bounds that cross make the upper one win: the lower bound is met exactly when they do not cross. */
  lemma LowerBoundKept(base: int, adjustment: int, lo: int, hi: int)
    requires WithinBound(lo) && WithinBound(hi)
    ensures Effective(base, adjustment, Some(lo), Some(hi)) <= hi
    ensures lo <= Effective(base, adjustment, Some(lo), Some(hi)) <==> lo <= hi
  {
  }

  // ---- The exact condition of every decision ----

  /** Start or resume lies less than the protection window back. */
  predicate StartedLately(t: Telemetry, p: Policy, now: Time) {
    && p.protectionWindow > 0
    && ((t.runStart.Some? && now < t.runStart.value + p.protectionWindow) ||
        (t.lastResume.Some? && now < t.lastResume.value + p.protectionWindow))
  }

  /** As many yields as the policy allows lie within the yield window. */
  ghost predicate YieldedEnough(t: Telemetry, p: Policy, now: Time) {
    && p.maxYieldsPerWindow > 0 && p.yieldWindow.Some? && p.yieldWindow.value > 0
    && |set i | 0 <= i < |t.yielded| && t.yielded[i] + p.yieldWindow.value >= now| >= p.maxYieldsPerWindow
  }

  predicate ResumedLately(t: Telemetry, p: Policy, now: Time) {
    p.minRuntimeBetweenYields > 0 && t.lastResume.Some? && now < t.lastResume.value + p.minRuntimeBetweenYields
  }

  /** The checkpoint is older than the freshness target; no age is below zero. */
  predicate TooOld(t: Telemetry, p: Policy, now: Time) {
    t.lastCheckpoint.Some? && (p.freshnessTarget < 0 || t.lastCheckpoint.value + p.freshnessTarget < now)
  }

  lemma BudgetExactly(t: Telemetry, p: Policy, now: Time)
    ensures BudgetExhausted(t, p, now) <==> YieldedEnough(t, p, now)
  {
    if p.yieldWindow.Some? {
      var w := p.yieldWindow.value;
      CountIsSize(t.yielded, now - w);
      assert Positions(t.yielded, now - w) == set i | 0 <= i < |t.yielded| && t.yielded[i] + w >= now;
    }
  }

  /** When each decision falls, in the fields of telemetry and policy. */
  lemma DecisionExactly(t: Telemetry, p: Policy, now: Time)
    ensures var s := Evaluate(t, Some(p), now).state;
            var protected, exhausted, cooling := StartedLately(t, p, now), YieldedEnough(t, p, now), ResumedLately(t, p, now);
            var held := protected || exhausted || cooling;
            && (s == StartupProtected <==> protected)
            && (s == YieldBudgetExhausted <==> !protected && exhausted)
            && (s == CoolingDown <==> !protected && !exhausted && cooling)
            && (s == TelemetryUnknown <==> !held && t.lastCheckpoint.None?)
            && (s == CheckpointStale <==> !held && TooOld(t, p, now))
            && (s == Active <==> !held && t.lastCheckpoint.Some? && !TooOld(t, p, now))
    ensures Evaluate(t, None, now) == Decision(Disabled, Unset, t.base)
  {
    BudgetExactly(t, p, now);
  }

  /** What each decision means: the preemption state, and the base with the boost or offset that belongs to it, clamped. */
  lemma MeaningExactly(t: Telemetry, p: Policy, now: Time)
    ensures var d := Evaluate(t, Some(p), now);
            var open_ := if t.storeError then p.failOpenOnStoreErrors else p.failOpenOnTelemetryLoss;
            match d.state
            case StartupProtected => d.preemption == Protected && d.effective == Effective(t.base, p.protectedBoost, p.minEffective, p.maxEffective)
            case YieldBudgetExhausted => d.preemption == Cooldown && d.effective == Effective(t.base, p.cooldownBoost, p.minEffective, p.maxEffective)
            case CoolingDown => d.preemption == Cooldown && d.effective == Effective(t.base, p.cooldownBoost, p.minEffective, p.maxEffective)
            case CheckpointStale => d.preemption == Preemptible && d.effective == Effective(t.base, p.preemptibleOffset, p.minEffective, p.maxEffective)
            case Active => d.preemption == ActiveState && d.effective == Effective(t.base, 0, p.minEffective, p.maxEffective)
            case TelemetryUnknown =>
              && d.preemption == (if open_ then ActiveState else Preemptible)
              && d.effective == Effective(t.base, if open_ then 0 else p.preemptibleOffset, p.minEffective, p.maxEffective)
            case Disabled => false
  {
  }

  // ---- Decay ----

  /** How far along its decay a decision is. */
  function Rank(s: DecisionState): nat {
    match s
    case Disabled => 0
    case StartupProtected => 1
    case YieldBudgetExhausted => 2
    case CoolingDown => 3
    case TelemetryUnknown => 4
    case Active => 4
    case CheckpointStale => 5
  }

  lemma BudgetOnlyRecovers(t: Telemetry, p: Policy, now: Time, later: Time)
    requires now <= later && BudgetExhausted(t, p, later)
    ensures BudgetExhausted(t, p, now)
  {
    var w := if p.yieldWindow.Some? then p.yieldWindow.value else 0;
    CountMonotone(t.yielded, now - w, later - w);
  }

  /** With telemetry and yield history fixed, time only moves the decision forward along protected,
      budget-exhausted, cooling, active, stale; missing telemetry is absorbing. */
  lemma DecisionDecays(t: Telemetry, policy: Option<Policy>, now: Time, later: Time)
    requires now <= later
    ensures Rank(Evaluate(t, policy, now).state) <= Rank(Evaluate(t, policy, later).state)
    ensures Evaluate(t, policy, now).state == TelemetryUnknown ==> Evaluate(t, policy, later) == Evaluate(t, policy, now)
    ensures Evaluate(t, policy, now).state == Active ==> Evaluate(t, policy, later).state != TelemetryUnknown
    ensures Evaluate(t, policy, now).state == CheckpointStale ==> Evaluate(t, policy, later) == Evaluate(t, policy, now)
  {
    if policy.Some? && BudgetExhausted(t, policy.value, later) {
      BudgetOnlyRecovers(t, policy.value, now, later);
    }
  }

  /** Some job can find itself in cooldown: through its yield budget, or because cooldown outlasts protection. */
  predicate CooldownReachable(p: Policy) {
    p.maxYieldsPerWindow > 0 || p.protectionWindow < p.minRuntimeBetweenYields
  }

  predicate BoostsOrdered(p: Policy) {
    && p.protectedBoost >= 0 >= p.preemptibleOffset
    && (CooldownReachable(p) ==> p.protectedBoost >= p.cooldownBoost >= 0)
  }

  /** The adjustment that a decision stands for. */
  function Adjustment(t: Telemetry, p: Policy, s: DecisionState): int {
    match s
    case StartupProtected => p.protectedBoost
    case YieldBudgetExhausted => p.cooldownBoost
    case CoolingDown => p.cooldownBoost
    case TelemetryUnknown => if if t.storeError then p.failOpenOnStoreErrors else p.failOpenOnTelemetryLoss then 0 else p.preemptibleOffset
    case CheckpointStale => p.preemptibleOffset
    case Active => 0
    case Disabled => 0
  }

  lemma EffectiveFollowsState(t: Telemetry, p: Policy, now: Time)
    ensures var d := Evaluate(t, Some(p), now);
            && d.effective == Adjusted(t, p, Adjustment(t, p, d.state))
            && d.state != Disabled
            && (d.preemption == Protected <==> d.state == StartupProtected)
            && (d.preemption == Cooldown <==> d.state == CoolingDown || d.state == YieldBudgetExhausted)
            && (d.preemption == Preemptible ==> d.effective == Adjusted(t, p, p.preemptibleOffset))
            && (d.preemption == ActiveState ==> d.effective == Adjusted(t, p, 0))
            && (ValidPolicy(p) && (d.state == CoolingDown || d.state == YieldBudgetExhausted) ==> CooldownReachable(p))
  {
  }

  lemma EffectiveIsMonotone(base: int, a: int, b: int, lo: Option<int>, hi: Option<int>)
    requires a <= b
    ensures Effective(base, a, lo, hi) <= Effective(base, b, lo, hi)
  {
  }

  /** When the boosts are ordered the effective priority never rises between events. */
  lemma PriorityNeverRises(t: Telemetry, policy: Option<Policy>, now: Time, later: Time)
    requires now <= later
    requires policy.Some? ==> ValidPolicy(policy.value) && BoostsOrdered(policy.value)
    ensures Evaluate(t, policy, later).effective <= Evaluate(t, policy, now).effective
  {
    if policy.Some? {
      var p := policy.value;
      var s, s' := Evaluate(t, policy, now).state, Evaluate(t, policy, later).state;
      DecisionDecays(t, policy, now, later);
      EffectiveFollowsState(t, p, now);
      EffectiveFollowsState(t, p, later);
      AdjustmentDecays(t, p, s, s');
      EffectiveIsMonotone(t.base, Adjustment(t, p, s'), Adjustment(t, p, s), p.minEffective, p.maxEffective);
    }
  }

  lemma AdjustmentDecays(t: Telemetry, p: Policy, s: DecisionState, s': DecisionState)
    requires BoostsOrdered(p) && Rank(s) <= Rank(s') && s != Disabled
    requires s == TelemetryUnknown ==> s' == s
    requires s == Active ==> s' != TelemetryUnknown
    requires s.CoolingDown? || s.YieldBudgetExhausted? || s'.CoolingDown? || s'.YieldBudgetExhausted? ==> CooldownReachable(p)
    ensures Adjustment(t, p, s') <= Adjustment(t, p, s)
  {
  }

  /** The priority of a job with an int32 base rises merely by the passing of time. */
  ghost predicate Rises(p: Policy, t: Telemetry, now: Time, later: Time) {
    && MIN_INT32 <= t.base <= MAX_INT32 && now <= later
    && Evaluate(t, Some(p), now).effective < Evaluate(t, Some(p), later).effective
  }

  /** The bounds leave one value. */
  predicate Pinned(p: Policy) {
    p.minEffective.Some? && p.minEffective == p.maxEffective
  }

  lemma {:induction false} CountAll(n: nat, x: Time, cutoff: Time)
    requires cutoff <= x
    ensures Count(seq(n, _ => x), cutoff) == n
  {
    if n > 0 {
      assert seq(n, _ => x)[..n - 1] == seq((n - 1) as nat, _ => x);
      CountAll(n - 1, x, cutoff);
    }
  }

  /** A job that can be in cooldown, seen when protection ends and again when nothing but its checkpoint counts. */
  lemma CooldownWitness(p: Policy, base: int) returns (t: Telemetry, in_: Time, out_: Time)
    requires ValidPolicy(p) && CooldownReachable(p)
    ensures 0 < in_ < out_ && t.base == base
    ensures Evaluate(t, Some(p), 0).state == StartupProtected
    ensures Evaluate(t, Some(p), in_).preemption == Cooldown
    ensures Evaluate(t, Some(p), out_).state == Active
  {
    in_ := p.protectionWindow;
    if p.maxYieldsPerWindow > 0 {
      var w := p.yieldWindow.value;
      out_ := in_ + w + 1;
      t := Telemetry(base, Some(out_), Some(0), None, false, seq(p.maxYieldsPerWindow, _ => in_));
      CountAll(p.maxYieldsPerWindow, in_, in_ - w);
      CountNone(p.maxYieldsPerWindow, in_, out_ - w);
    } else {
      out_ := p.minRuntimeBetweenYields;
      t := Telemetry(base, Some(out_), None, Some(0), false, []);
    }
  }

  lemma {:induction false} CountNone(n: nat, x: Time, cutoff: Time)
    requires x < cutoff
    ensures Count(seq(n, _ => x), cutoff) == 0
  {
    if n > 0 {
      assert seq(n, _ => x)[..n - 1] == seq((n - 1) as nat, _ => x);
      CountNone(n - 1, x, cutoff);
    }
  }

  /** A base at which a larger adjustment shows, whatever the bounds. */
  function Telling(p: Policy, adjustment: int): int {
    if p.minEffective.Some? then p.minEffective.value - adjustment
    else if p.maxEffective.Some? then p.maxEffective.value - 1 - adjustment
    else 0
  }

  lemma LargerAdjustmentShows(p: Policy, a: int, b: int)
    requires ValidPolicy(p) && !Pinned(p) && WithinBound(a) && WithinBound(b) && a < b
    ensures MIN_INT32 <= Telling(p, a) <= MAX_INT32
    ensures Effective(Telling(p, a), a, p.minEffective, p.maxEffective) < Effective(Telling(p, a), b, p.minEffective, p.maxEffective)
  {
  }

  /** The priority rises between two instants at which the decision stands for a smaller and a larger adjustment. */
  lemma RisesBetween(p: Policy, t: Telemetry, now: Time, later: Time)
    requires ValidPolicy(p) && !Pinned(p) && now <= later
    requires var a := Adjustment(t, p, Evaluate(t, Some(p), now).state);
             a < Adjustment(t, p, Evaluate(t, Some(p), later).state) && t.base == Telling(p, a)
    ensures Rises(p, t, now, later)
  {
    EffectiveFollowsState(t, p, now);
    EffectiveFollowsState(t, p, later);
    LargerAdjustmentShows(p, Adjustment(t, p, Evaluate(t, Some(p), now).state), Adjustment(t, p, Evaluate(t, Some(p), later).state));
  }

  lemma UnorderedBoostsRise(p: Policy) returns (t: Telemetry, now: Time, later: Time)
    requires ValidPolicy(p) && !Pinned(p) && !BoostsOrdered(p)
    ensures Rises(p, t, now, later)
  {
    if p.protectedBoost < 0 {
      t, now, later := Telemetry(Telling(p, p.protectedBoost), Some(p.protectionWindow), Some(0), None, false, []), 0, p.protectionWindow;
    } else if 0 < p.preemptibleOffset {
      t, now, later := Telemetry(Telling(p, 0), Some(0), None, None, false, []), 0, p.freshnessTarget + 1;
    } else if p.protectedBoost < p.cooldownBoost {
      var out_;
      t, later, out_ := CooldownWitness(p, Telling(p, p.protectedBoost));
      now := 0;
      EffectiveFollowsState(t, p, later);
    } else {
      t, now, later := CooldownWitness(p, Telling(p, p.cooldownBoost));
      EffectiveFollowsState(t, p, now);
    }
    RisesBetween(p, t, now, later);
  }

  lemma PinnedNeverRises(p: Policy, t: Telemetry, now: Time)
    requires ValidPolicy(p) && Pinned(p)
    ensures Evaluate(t, Some(p), now).effective == p.minEffective.value
  {
    DecisionWithinBounds(t, p, now);
  }

  /** The order of the boosts is exact: a valid policy, with or without bounds, never raises the priority of any job by the
      passing of time if and only if its boosts are ordered or its bounds leave one value. */
  lemma NeverRisesExactlyWhenOrdered(p: Policy)
    requires ValidPolicy(p)
    ensures BoostsOrdered(p) || Pinned(p) <==> forall t, now, later :: !Rises(p, t, now, later)
  {
    if BoostsOrdered(p) || Pinned(p) {
      forall t, now, later ensures !Rises(p, t, now, later) {
        if now <= later {
          if Pinned(p) {
            PinnedNeverRises(p, t, now);
            PinnedNeverRises(p, t, later);
          } else {
            PriorityNeverRises(t, Some(p), now, later);
          }
        }
      }
    } else {
      var t, now, later := UnorderedBoostsRise(p);
    }
  }

  lemma EffectiveInRange(base: int, adjustment: int, p: Policy)
    requires ValidPolicy(p)
    ensures InRange(Effective(base, adjustment, p.minEffective, p.maxEffective), p.minEffective, p.maxEffective)
  {
  }

  /** Every decision of a valid policy stays within the policy's bounds and int32. */
  lemma DecisionWithinBounds(t: Telemetry, p: Policy, now: Time)
    requires ValidPolicy(p)
    ensures InRange(Evaluate(t, Some(p), now).effective, p.minEffective, p.maxEffective)
  {
    EffectiveFollowsState(t, p, now);
    EffectiveInRange(t.base, Adjustment(t, p, Evaluate(t, Some(p), now).state), p);
  }
}
