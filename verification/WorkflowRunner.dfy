/** The workflow loop: step budget, progress resets and the detection of idle waiting. */
module WorkflowRunner {
  type Frame = string

  datatype Outcome =
    | StayedWithProgress
    | StayedWaiting(reason: string)
    | TransitionCommitted
    | Return(frames: seq<Frame>)
    | Failed(reason: string)

  /** One `execute_turn`: its outcome, the frames it appended, and the step counts around it. */
  datatype Turn = Turn(outcome: Outcome, emitted: seq<Frame>, before: nat, after: nat)

  datatype Config = Config(maxPhaseSteps: nat, idleLimit: nat, activeLimit: nat, maxTotalSteps: nat)

  datatype End =
    | Finished(frames: seq<Frame>)
    | HardCeiling(total: nat)
    | PhaseBudget(total: nat)
    | Stuck(waits: nat, last: string)
    | FailedWith(reason: string)

  /** The cast of a count to 32 bits. */
  function AsU32(n: nat): nat {
    n % 0x1_0000_0000
  }

  predicate WasActive(t: Turn) {
    t.after > t.before + 2
  }

  // ---- What the outcomes say, without the loop's variables ---------------------------------

  /** Turns taken since the last one that made progress. */
  function SinceProgress(turns: nat -> Turn, k: nat): nat {
    if k == 0 || turns(k - 1).outcome.StayedWithProgress? then 0 else 1 + SinceProgress(turns, k - 1)
  }

  /** The weight of the waiting turns at the end: an active one counts 1, an idle one 2. */
  function WaitWeight(turns: nat -> Turn, k: nat): nat {
    if k == 0 || !turns(k - 1).outcome.StayedWaiting? then 0
    else WaitWeight(turns, k - 1) + if WasActive(turns(k - 1)) then 1 else 2
  }

  function Waits(turns: nat -> Turn, k: nat): nat {
    if k == 0 || !turns(k - 1).outcome.StayedWaiting? then 0 else 1 + Waits(turns, k - 1)
  }

  function Progresses(turns: nat -> Turn, k: nat): nat {
    if k == 0 then 0
    else Progresses(turns, k - 1) + if turns(k - 1).outcome.StayedWithProgress? then 1 else 0
  }

  function FramesOf(turns: nat -> Turn, k: nat): seq<Frame> {
    if k == 0 then [] else FramesOf(turns, k - 1) + turns(k - 1).emitted
  }

  function Limit(cfg: Config, t: Turn): nat {
    if WasActive(t) then cfg.activeLimit else cfg.idleLimit
  }

  datatype Stop = GoesOn | Stops(end: End, taken: nat, exhausted: bool)

  /** Whether the run ends once `k` turns are done or with the next one. */
  function StopAt(turns: nat -> Turn, cfg: Config, k: nat): Stop {
    if SinceProgress(turns, k) >= cfg.maxPhaseSteps then Stops(PhaseBudget(AsU32(k)), k, true)
    else if k >= cfg.maxTotalSteps then Stops(HardCeiling(AsU32(k + 1)), k, true)
    else
      match turns(k).outcome
      case StayedWithProgress => GoesOn
      case TransitionCommitted => GoesOn
      case StayedWaiting(reason) =>
        if WaitWeight(turns, k + 1) >= Limit(cfg, turns(k))
        then Stops(Stuck(AsU32(WaitWeight(turns, k + 1)), reason), k + 1, false) else GoesOn
      case Return(frames) => Stops(Finished(FramesOf(turns, k + 1) + frames), k + 1, false)
      case Failed(reason) => Stops(FailedWith(reason), k + 1, false)
  }

  // ---- The loop ----------------------------------------------------------------------------

  /** `run`. `exhausted` is what `on_budget_exhausted` appends for a given total; `handled`
      counts its calls and `taken` the turns. The run ends at the first point where the
      outcomes say it must, with what they say. */
  method Run(turns: nat -> Turn, exhausted: nat -> seq<Frame>, cfg: Config)
    returns (end: End, outFrames: seq<Frame>, taken: nat, handled: nat)
    ensures exists k: nat :: k <= cfg.maxTotalSteps && StopAt(turns, cfg, k) == Stops(end, taken, handled == 1)
                             && forall j :: 0 <= j < k ==> StopAt(turns, cfg, j) == GoesOn
    ensures handled <= 1 && (handled == 1 <==> end.HardCeiling? || end.PhaseBudget?)
    ensures !end.Finished? && handled == 0 ==> outFrames == FramesOf(turns, taken)
    ensures end.Finished? ==> outFrames == end.frames
    ensures end.PhaseBudget? ==> outFrames == FramesOf(turns, taken) + exhausted(taken)
    ensures end.HardCeiling? ==> outFrames == FramesOf(turns, taken) + exhausted(taken + 1)
  {
    var remainingSteps := cfg.maxPhaseSteps;
    var totalSteps, consecutiveWaiting := 0, 0;
    outFrames, taken, handled := [], 0, 0;
    while remainingSteps > 0
      invariant taken == totalSteps <= cfg.maxTotalSteps && handled == 0
      invariant remainingSteps + SinceProgress(turns, taken) == cfg.maxPhaseSteps
      invariant consecutiveWaiting == WaitWeight(turns, taken)
      invariant outFrames == FramesOf(turns, taken)
      invariant forall j :: 0 <= j < taken ==> StopAt(turns, cfg, j) == GoesOn
      decreases cfg.maxTotalSteps - totalSteps
    {
      ghost var k := taken;
      totalSteps := totalSteps + 1;
      remainingSteps := remainingSteps - 1;
      if totalSteps > cfg.maxTotalSteps {
        outFrames, handled := outFrames + exhausted(totalSteps), handled + 1;
        end := HardCeiling(AsU32(totalSteps));
        assert StopAt(turns, cfg, k) == Stops(end, taken, true);
        return;
      }
      var turn := turns(taken);
      outFrames, taken := outFrames + turn.emitted, taken + 1;
      match turn.outcome {
        case StayedWithProgress =>
          remainingSteps := cfg.maxPhaseSteps;
          consecutiveWaiting := 0;
        case StayedWaiting(reason) =>
          var wasActive := turn.after > turn.before + 2;
          consecutiveWaiting := consecutiveWaiting + if wasActive then 1 else 2;
          var limit := if wasActive then cfg.activeLimit else cfg.idleLimit;
          if consecutiveWaiting >= limit {
            end := Stuck(AsU32(consecutiveWaiting), reason);
            assert StopAt(turns, cfg, k) == Stops(end, taken, false);
            return;
          }
        case TransitionCommitted =>
          consecutiveWaiting := 0;
        case Return(frames) =>
          outFrames := outFrames + frames;
          end := Finished(outFrames);
          assert StopAt(turns, cfg, k) == Stops(end, taken, false);
          return;
        case Failed(reason) =>
          end := FailedWith(reason);
          assert StopAt(turns, cfg, k) == Stops(end, taken, false);
          return;
      }
      assert StopAt(turns, cfg, k) == GoesOn;
    }
    outFrames, handled := outFrames + exhausted(totalSteps), handled + 1;
    end := PhaseBudget(AsU32(totalSteps));
    assert StopAt(turns, cfg, taken) == Stops(end, taken, true);
  }

  // ---- When a budget is spent -----------------------------------------------------------------

  lemma {:induction false} SinceProgressCounts(turns: nat -> Turn, k: nat, n: nat)
    ensures SinceProgress(turns, k) >= n <==>
            n <= k && forall i :: k - n <= i < k ==> !turns(i).outcome.StayedWithProgress?
    decreases k
  {
    if k > 0 && n > 0 { SinceProgressCounts(turns, k - 1, n - 1); }
  }

  /** The phase budget ends a run exactly where the last `max_phase_steps` turns made no progress,
      and otherwise the hard ceiling does exactly where `max_total_steps` turns are done. */
  lemma BudgetSpentExactlyWhen(turns: nat -> Turn, cfg: Config, k: nat)
    ensures var stop := StopAt(turns, cfg, k);
            var stalled := cfg.maxPhaseSteps <= k
                           && forall i :: k - cfg.maxPhaseSteps <= i < k ==> !turns(i).outcome.StayedWithProgress?;
            && (stop.Stops? && stop.end.PhaseBudget? <==> stalled)
            && (stop.Stops? && stop.end.HardCeiling? <==> !stalled && k >= cfg.maxTotalSteps)
            && (stop.Stops? && stop.exhausted ==> stop.taken == k)
            && (stop.Stops? && !stop.exhausted ==> stop.taken == k + 1)
  {
    SinceProgressCounts(turns, k, cfg.maxPhaseSteps);
  }

  // ---- When waiting counts as stuck -----------------------------------------------------------

  /** The waits among turns `lo` to `hi` that added at most two steps. */
  function IdleAmong(turns: nat -> Turn, lo: nat, hi: nat): nat
    requires lo <= hi
  {
    if lo == hi then 0
    else IdleAmong(turns, lo, hi - 1) + if turns(hi - 1).after <= turns(hi - 1).before + 2 then 1 else 0
  }

  /** The turns `lo` to `hi` all wait, and the one before them does not. */
  ghost predicate WaitsOnly(turns: nat -> Turn, lo: nat, hi: nat) {
    && (forall i :: lo <= i < hi ==> turns(i).outcome.StayedWaiting?)
    && (lo > 0 ==> !turns(lo - 1).outcome.StayedWaiting?)
  }

  lemma {:induction false} WeightCountsIdleTwice(turns: nat -> Turn, lo: nat, hi: nat)
    requires lo <= hi && WaitsOnly(turns, lo, hi)
    ensures WaitWeight(turns, hi) == (hi - lo) + IdleAmong(turns, lo, hi)
    decreases hi
  {
    if hi > lo { WeightCountsIdleTwice(turns, lo, hi - 1); }
  }

  lemma {:induction false} IdleOfOneKind(turns: nat -> Turn, lo: nat, hi: nat)
    requires lo <= hi
    ensures (forall i :: lo <= i < hi ==> turns(i).after <= turns(i).before + 2)
              ==> IdleAmong(turns, lo, hi) == hi - lo
    ensures (forall i :: lo <= i < hi ==> turns(i).after > turns(i).before + 2)
              ==> IdleAmong(turns, lo, hi) == 0
    decreases hi
  {
    if hi > lo { IdleOfOneKind(turns, lo, hi - 1); }
  }

  /** With budget left, the n-th wait in a row ends the run exactly when n, plus once more for
      every idle one, reaches the idle limit (at an idle wait) or the active limit (at an active
      one). In particular n idle waits end it when 2n reaches the idle limit, and n active ones
      when n reaches the active limit. */
  lemma StuckExactlyWhen(turns: nat -> Turn, cfg: Config, lo: nat, k: nat)
    requires lo <= k && WaitsOnly(turns, lo, k + 1)
    requires SinceProgress(turns, k) < cfg.maxPhaseSteps && k < cfg.maxTotalSteps
    ensures var n := k + 1 - lo;
            var weight := n + IdleAmong(turns, lo, k + 1);
            var idle := turns(k).after <= turns(k).before + 2;
            if weight >= if idle then cfg.idleLimit else cfg.activeLimit
            then StopAt(turns, cfg, k) == Stops(Stuck(AsU32(weight), turns(k).outcome.reason), k + 1, false)
            else StopAt(turns, cfg, k) == GoesOn
    ensures (forall i :: lo <= i <= k ==> turns(i).after <= turns(i).before + 2)
              ==> IdleAmong(turns, lo, k + 1) == k + 1 - lo
    ensures (forall i :: lo <= i <= k ==> turns(i).after > turns(i).before + 2)
              ==> IdleAmong(turns, lo, k + 1) == 0
  {
    WeightCountsIdleTwice(turns, lo, k + 1);
    assert turns(k).outcome.StayedWaiting?;
    IdleOfOneKind(turns, lo, k + 1);
  }

  // ---- Bounds ------------------------------------------------------------------------------

  ghost predicate FirstStop(turns: nat -> Turn, cfg: Config, k: nat) {
    StopAt(turns, cfg, k).Stops? && forall j :: 0 <= j < k ==> StopAt(turns, cfg, j) == GoesOn
  }

  lemma {:induction false} PhaseBound(turns: nat -> Turn, cfg: Config, k: nat)
    requires forall j :: 0 <= j < k ==> StopAt(turns, cfg, j) == GoesOn
    ensures SinceProgress(turns, k) <= cfg.maxPhaseSteps
    ensures k <= SinceProgress(turns, k) + cfg.maxPhaseSteps * Progresses(turns, k)
    decreases k
  {
    if k > 0 {
      PhaseBound(turns, cfg, k - 1);
      assert StopAt(turns, cfg, k - 1) == GoesOn;
      if turns(k - 1).outcome.StayedWithProgress? {
        assert cfg.maxPhaseSteps * Progresses(turns, k)
            == cfg.maxPhaseSteps * Progresses(turns, k - 1) + cfg.maxPhaseSteps;
      }
    }
  }

  lemma {:induction false} WeightBoundsWaits(turns: nat -> Turn, k: nat)
    ensures Waits(turns, k) <= WaitWeight(turns, k) <= 2 * Waits(turns, k)
  {
    if k > 0 { WeightBoundsWaits(turns, k - 1); }
  }

  /** A run takes at most `max_total_steps` turns and at most `max_phase_steps` for each
      progress and once more, and before it stops fewer waits in a row than the larger limit. */
  lemma RunIsBounded(turns: nat -> Turn, cfg: Config, k: nat)
    requires FirstStop(turns, cfg, k)
    ensures StopAt(turns, cfg, k).taken <= cfg.maxTotalSteps
    ensures StopAt(turns, cfg, k).taken <= cfg.maxPhaseSteps * (1 + Progresses(turns, k))
    ensures forall j :: 0 <= j <= k ==>
              Waits(turns, j) == 0
              || Waits(turns, j) < (if cfg.idleLimit > cfg.activeLimit then cfg.idleLimit else cfg.activeLimit)
  {
    PhaseBound(turns, cfg, k);
    assert cfg.maxPhaseSteps * (1 + Progresses(turns, k))
        == cfg.maxPhaseSteps + cfg.maxPhaseSteps * Progresses(turns, k);
    if k > 0 { assert StopAt(turns, cfg, k - 1) == GoesOn; }
    forall j | 0 <= j <= k
      ensures Waits(turns, j) == 0
              || Waits(turns, j) < (if cfg.idleLimit > cfg.activeLimit then cfg.idleLimit else cfg.activeLimit)
    {
      WeightBoundsWaits(turns, j);
      if j > 0 { assert StopAt(turns, cfg, j - 1) == GoesOn; }
    }
  }
}
