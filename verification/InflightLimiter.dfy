/** The limiter of LLM calls in flight: a counter under a mutex with a condition variable.
    Threads barge in, wake spuriously and release in any order. */
module InflightLimiter {
  import opened Text
  import opened Executions

  type Tid = nat

  /** Each thread is outside, asleep in `wait`, notified but not yet running, or holding a
      permit. The fields below are what the mutex protects, plus who is where. */
  datatype Monitor = Monitor(
    maxInflight: nat,
    inUse: nat,
    sleeping: set<Tid>,
    notified: set<Tid>,
    holding: set<Tid>)

  /** One pass through a critical section. `woken` is the sleeper that `notify_one` picks. */
  datatype Event = Enter(t: Tid) | Resume(t: Tid) | Spurious(t: Tid) | Release(t: Tid, woken: Option<Tid>)

  predicate Outside(m: Monitor, t: Tid) {
    t !in m.sleeping && t !in m.notified && t !in m.holding
  }

  predicate Possible(m: Monitor, ev: Event) {
    match ev
    case Enter(t) => Outside(m, t)
    case Resume(t) => t in m.notified
    case Spurious(t) => t in m.sleeping
    case Release(t, woken) =>
      t in m.holding && (if woken.Some? then woken.value in m.sleeping else m.sleeping == {})
  }

  /** The test of `acquire`'s loop, by a thread that has the mutex. */
  function Attempt(m: Monitor, t: Tid): Monitor {
    if m.inUse >= m.maxInflight then m.(sleeping := m.sleeping + {t})
    else m.(inUse := m.inUse + 1, holding := m.holding + {t})
  }

  function Step(m: Monitor, ev: Event): Monitor {
    if !Possible(m, ev) then m
    else
      match ev
      case Enter(t) => Attempt(m, t)
      case Resume(t) => Attempt(m.(notified := m.notified - {t}), t)
      case Spurious(t) => m.(sleeping := m.sleeping - {t}, notified := m.notified + {t})
      case Release(t, woken) =>
        var m' := m.(holding := m.holding - {t}, inUse := if m.inUse > 0 then m.inUse - 1 else 0);
        if woken.None? then m'
        else m'.(sleeping := m'.sleeping - {woken.value}, notified := m'.notified + {woken.value})
  }

  function Exec(m: Monitor, evs: seq<Event>): Monitor {
    Fold(Step, m, evs)
  }

  function New(maxInflight: nat): Monitor {
    Monitor(if maxInflight < 1 then 1 else maxInflight, 0, {}, {}, {})
  }

  /** `inUse` counts the live permits and never passes the limit; while a thread sleeps, the
      permits out and the notified threads together fill the limit. */
  ghost predicate Inv(m: Monitor) {
    && m.maxInflight >= 1
    && m.sleeping !! m.notified && m.sleeping !! m.holding && m.notified !! m.holding
    && m.inUse == |m.holding| <= m.maxInflight
    && (m.sleeping != {} ==> |m.holding| + |m.notified| >= m.maxInflight)
  }

  /** `m` before the thread left the notified ones, `n` after. */
  lemma AttemptKeepsInv(m: Monitor, n: Monitor, t: Tid)
    requires Inv(m) && n == m.(notified := n.notified) && Outside(n, t) && n.notified <= m.notified
    requires |n.notified| + (if t in m.notified then 1 else 0) == |m.notified|
    ensures Inv(Attempt(n, t))
  {
    assert |n.holding + {t}| == |n.holding| + 1;
  }

  lemma StepKeepsInv(m: Monitor, ev: Event)
    requires Inv(m)
    ensures Inv(Step(m, ev)) && Step(m, ev).maxInflight == m.maxInflight
  {
    if Possible(m, ev) {
      match ev
      case Enter(t) => AttemptKeepsInv(m, m, t);
      case Resume(t) =>
        assert |m.notified - {t}| == |m.notified| - 1;
        AttemptKeepsInv(m, m.(notified := m.notified - {t}), t);
      case Spurious(t) => assert |m.notified + {t}| == |m.notified| + 1;
      case Release(t, woken) =>
        assert |m.holding - {t}| == |m.holding| - 1;
        if woken.Some? { assert |m.notified + {woken.value}| == |m.notified| + 1; }
    }
  }

  lemma {:induction false} RunKeepsInv(m: Monitor, evs: seq<Event>)
    requires Inv(m)
    ensures Inv(Exec(m, evs)) && Exec(m, evs).maxInflight == m.maxInflight
    decreases |evs|
  {
    if evs != [] {
      StepKeepsInv(m, evs[0]);
      RunKeepsInv(Step(m, evs[0]), evs[1..]);
    }
  }

  /** The limit that a configured number stands for. */
  function LimitFor(configured: nat): nat {
    if configured < 1 then 1 else configured
  }

  /** Over every run, in every interleaving: the permits out never pass the configured limit, the
      count is right, and a free permit with a thread asleep means that another thread has been
      told of it. */
  lemma {:induction false} NoLostWakeup(configured: nat, evs: seq<Event>)
    ensures var m := Exec(New(configured), evs);
            && m.inUse == |m.holding| <= LimitFor(configured)
            && (m.sleeping != {} ==> |m.holding| + |m.notified| >= LimitFor(configured))
            && (m.sleeping != {} && |m.holding| < LimitFor(configured) ==> m.notified != {})
  {
    RunKeepsInv(New(configured), evs);
  }

  /** In every reachable state a thread that arrives, or runs after a notification, gets its permit
      exactly when fewer than the configured number are out; otherwise it sleeps. Nobody else is
      affected. */
  lemma {:induction false} GrantedExactlyBelowLimit(configured: nat, evs: seq<Event>, ev: Event)
    requires (ev.Enter? || ev.Resume?) && Possible(Exec(New(configured), evs), ev)
    ensures var m := Exec(New(configured), evs); var m' := Step(m, ev);
            && (if |m.holding| < LimitFor(configured)
                then m'.holding == m.holding + {ev.t} && m'.sleeping == m.sleeping
                else m'.holding == m.holding && m'.sleeping == m.sleeping + {ev.t})
            && m'.notified == m.notified - {ev.t}
  {
    RunKeepsInv(New(configured), evs);
  }

  /** A release gives back one permit and, if anybody sleeps, wakes exactly one thread. */
  lemma {:induction false} ReleaseWakesOne(configured: nat, evs: seq<Event>, ev: Event)
    requires ev.Release? && Possible(Exec(New(configured), evs), ev)
    ensures var m := Exec(New(configured), evs); var m' := Step(m, ev);
            && m'.holding == m.holding - {ev.t} && |m'.holding| == |m.holding| - 1
            && |m'.sleeping| == (if m.sleeping == {} then 0 else |m.sleeping| - 1)
            && m'.sleeping + m'.notified == m.sleeping + m.notified
  {
    RunKeepsInv(New(configured), evs);
    var m := Exec(New(configured), evs);
    assert |m.holding - {ev.t}| == |m.holding| - 1;
    if ev.woken.Some? { assert |m.sleeping - {ev.woken.value}| == |m.sleeping| - 1; }
  }

  // ---- Everyone who waits can be served ----------------------------------------------------

  predicate Served(evs: seq<Event>) {
    forall i :: 0 <= i < |evs| ==> evs[i].Resume? || evs[i].Release?
  }

  lemma OneIn(s: set<Tid>) returns (t: Tid)
    requires s != {}
    ensures t in s && |s - {t}| == |s| - 1
  {
    t :| t in s;
  }

  lemma ExecOne(m: Monitor, ev: Event)
    ensures Exec(m, [ev]) == Step(m, ev)
  {
    assert [ev][1..] == [];
    assert Fold(Step, Step(m, ev), []) == Step(m, ev);
  }

  /** A release, if it takes one, leaves room and somebody who has been notified. */
  lemma MakeRoom(m: Monitor) returns (evs: seq<Event>)
    requires Inv(m) && m.sleeping + m.notified != {}
    ensures var m' := Exec(m, evs);
            && Served(evs) && |evs| <= 1 && Inv(m')
            && m'.inUse < m'.maxInflight && m'.notified != {}
            && |m'.sleeping| + |m'.notified| == |m.sleeping| + |m.notified|
  {
    if m.inUse < m.maxInflight && m.notified != {} { return []; }
    var h := OneIn(m.holding);
    var woken: Option<Tid> := None;
    if m.sleeping != {} {
      var w := OneIn(m.sleeping);
      woken := Some(w);
    }
    StepKeepsInv(m, Release(h, woken));
    ExecOne(m, Release(h, woken));
    return [Release(h, woken)];
  }

  /** One more waiter gets its permit by at most one release and one resumption. */
  lemma ServeOne(m: Monitor) returns (evs: seq<Event>)
    requires Inv(m) && m.sleeping + m.notified != {}
    ensures var m' := Exec(m, evs);
            && Served(evs) && |evs| <= 2 && Inv(m')
            && |m'.sleeping| + |m'.notified| == |m.sleeping| + |m.notified| - 1
  {
    hide Fold;
    var room := MakeRoom(m);
    var mid := Exec(m, room);
    var t := OneIn(mid.notified);
    StepKeepsInv(mid, Resume(t));
    ExecOne(mid, Resume(t));
    FoldConcat(Step, m, room, [Resume(t)]);
    evs := room + [Resume(t)];
    hide Inv;
  }

  /** From every reachable state the waiters drain by releases and resumptions alone: no
      wakeup was lost, so nobody is stranded. */
  lemma {:induction false} WaitersDrain(m: Monitor) returns (evs: seq<Event>)
    requires Inv(m)
    ensures var m' := Exec(m, evs);
            Served(evs) && |evs| <= 2 * (|m.sleeping| + |m.notified|) && m'.sleeping == {} && m'.notified == {}
    decreases |m.sleeping| + |m.notified|
  {
    if m.sleeping + m.notified == {} {
      evs := [];
    } else {
      var first := ServeOne(m);
      var rest := WaitersDrain(Exec(m, first));
      FoldConcat(Step, m, first, rest);
      evs := first + rest;
    }
  }

  // ---- The object --------------------------------------------------------------------------

  /** `InflightLimiter`: `slots` is the guarded counter. The ghost sets record which thread is
      where; each method is one critical section. */
  class Limiter {
    const maxInflight: nat
    var slots: nat
    ghost var sleeping: set<Tid>
    ghost var notified: set<Tid>
    ghost var holding: set<Tid>

    ghost function Model(): Monitor
      reads this
    {
      Monitor(maxInflight, slots, sleeping, notified, holding)
    }

    constructor (max: nat)
      ensures Model() == New(max) && Inv(Model())
      ensures maxInflight == LimitFor(max) && slots == 0 && sleeping == notified == holding == {}
    {
      maxInflight := if max < 1 then 1 else max;
      slots := 0;
      sleeping, notified, holding := {}, {}, {};
    }

    /** `acquire` from the lock to its return or to `wait`. */
    method Acquire(t: Tid) returns (permit: bool)
      requires Inv(Model()) && (Outside(Model(), t) || t in notified)
      modifies this
      ensures Inv(Model())
      ensures Model() == Step(old(Model()), if old(t in notified) then Resume(t) else Enter(t))
      ensures permit <==> t in holding
      ensures permit <==> |old(holding)| < maxInflight
    {
      assert slots == |holding|;
      hide Inv;
      ghost var next := Step(Model(), if t in notified then Resume(t) else Enter(t));
      StepKeepsInv(Model(), if t in notified then Resume(t) else Enter(t));
      notified := notified - {t};
      permit := slots < maxInflight;
      if permit {
        slots := slots + 1;
        holding := holding + {t};
      } else {
        sleeping := sleeping + {t};
      }
      assert Model() == next;
    }

    /** `release`, on dropping a permit. */
    method Release(t: Tid, ghost woken: Option<Tid>)
      requires Inv(Model()) && Possible(Model(), Event.Release(t, woken))
      modifies this
      ensures Inv(Model()) && Model() == Step(old(Model()), Event.Release(t, woken))
      ensures slots == old(slots) - 1 && holding == old(holding) - {t}
    {
      assert 0 < slots by { assert holding != {}; }
      hide Inv;
      ghost var next := Step(Model(), Event.Release(t, woken));
      StepKeepsInv(Model(), Event.Release(t, woken));
      if slots > 0 { slots := slots - 1; }
      holding := holding - {t};
      if woken.Some? {
        sleeping := sleeping - {woken.value};
        notified := notified + {woken.value};
      }
      assert Model() == next;
    }
  }
}
