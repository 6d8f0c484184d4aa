/** With a bound, pushers and poppers share the condition variable and `notify_one` can pick a pusher.
    For every positive bound a wakeup can be lost. */
module BoundedQueue {
  import opened WaitQueue
  import opened Wrappers

  /* ---- whole calls as runs ---- */

  ghost predicate Reaches(s: State, r: State) {
    exists steps :: Run(s, steps, r)
  }

  lemma ReachNothing(s: State)
    ensures Reaches(s, s)
  {
    assert Run(s, [], s);
  }

  lemma {:induction false} RunJoins(s: State, first: seq<Step>, m: State, second: seq<Step>, r: State)
    requires Run(s, first, m) && Run(m, second, r)
    ensures Run(s, first + second, r)
    decreases |first|
  {
    if first == [] {
      assert first + second == second;
    } else {
      RunJoins(Apply(s, first[0]), first[1..], m, second, r);
      assert (first + second)[1..] == first[1..] + second;
    }
  }

  lemma ReachJoins(s: State, m: State, r: State)
    requires Reaches(s, m) && Reaches(m, r)
    ensures Reaches(s, r)
  {
    var first :| Run(s, first, m);
    var second :| Run(m, second, r);
    RunJoins(s, first, m, second, r);
  }

  lemma ReachMore(s: State, m: State, st: Step)
    requires Reaches(s, m) && Enabled(m, st)
    ensures Reaches(s, Apply(m, st))
  {
    assert Run(Apply(m, st), [], Apply(m, st));
    assert [st][1..] == [];
    assert Run(m, [st], Apply(m, st));
    ReachJoins(s, m, Apply(m, st));
  }

  ghost predicate Calm(s: State) {
    s.lock == None && s.limit > 0
  }

  const ITEM := Push(0, false)

  lemma InsertWith(s0: State, s: State, t: Tid) returns (r: State)
    requires Reaches(s0, s) && Calm(s) && t in s.pcs && s.pcs[t] == Idle && |s.queue| < s.limit
    ensures Reaches(s0, r) && r.lock == Some(t) && r.limit == s.limit && r.queue == s.queue + [0]
    ensures r.pcs == s.pcs[t := Notifying]
  {
    hide Reaches;
    var a := Apply(s, Call(t, ITEM));
    var b := Apply(a, Acquire(t));
    var c := Apply(b, Test(t));
    r := Apply(c, Act(t));
    ReachMore(s0, s, Call(t, ITEM));
    ReachMore(s0, a, Acquire(t));
    ReachMore(s0, b, Test(t));
    ReachMore(s0, c, Act(t));
  }

  /** A push that finds room and wakes `target`, if anybody sleeps. */
  lemma PushWith(s0: State, s: State, t: Tid, target: Option<Tid>) returns (r: State)
    requires Reaches(s0, s) && Calm(s) && t in s.pcs && s.pcs[t] == Idle && |s.queue| < s.limit
    requires target.None? ==> forall u :: u in s.pcs ==> !s.pcs[u].Asleep?
    requires target.Some? ==> target.value in s.pcs && s.pcs[target.value].Asleep?
    ensures Reaches(s0, r) && Calm(r) && r.limit == s.limit && r.queue == s.queue + [0]
    ensures r.pcs == if target.None? then s.pcs else s.pcs[target.value := Wanting(s.pcs[target.value].op, true)]
  {
    hide Reaches;
    var d := InsertWith(s0, s, t);
    var e := Apply(d, Notify(t, target));
    r := Apply(e, Leave(t));
    ReachMore(s0, d, Notify(t, target));
    ReachMore(s0, e, Leave(t));
  }

  lemma PopWith(s0: State, s: State, t: Tid) returns (r: State)
    requires Reaches(s0, s) && Calm(s) && t in s.pcs && s.pcs[t] == Idle && s.queue != []
    ensures Reaches(s0, r) && Calm(r) && r.limit == s.limit && r.queue == s.queue[1..] && r.pcs == s.pcs
  {
    var a := Apply(s, Call(t, Pop));
    var b := Apply(a, Acquire(t));
    var c := Apply(b, Test(t));
    var d := Apply(c, Act(t));
    r := Apply(d, Leave(t));
    hide Reaches;
    ReachMore(s0, s, Call(t, Pop));
    ReachMore(s0, a, Acquire(t));
    ReachMore(s0, b, Test(t));
    ReachMore(s0, c, Act(t));
    ReachMore(s0, d, Leave(t));
  }

  /** A thread that may contend for the mutex tests its predicate in vain and goes to sleep. */
  lemma SleepWith(s0: State, s: State, t: Tid) returns (r: State)
    requires Reaches(s0, s) && Calm(s) && t in s.pcs && s.pcs[t].Wanting? && !MayGo(s.limit, s.queue, s.pcs[t].op)
    ensures Reaches(s0, r) && Calm(r) && r.limit == s.limit && r.queue == s.queue
    ensures r.pcs == s.pcs[t := Asleep(s.pcs[t].op)]
  {
    var b := Apply(s, Acquire(t));
    r := Apply(b, Test(t));
    hide Reaches;
    ReachMore(s0, s, Acquire(t));
    ReachMore(s0, b, Test(t));
  }

  lemma CallAndSleep(s0: State, s: State, t: Tid, op: Op) returns (r: State)
    requires Reaches(s0, s) && Calm(s) && t in s.pcs && s.pcs[t] == Idle && !MayGo(s.limit, s.queue, op)
    ensures Reaches(s0, r) && Calm(r) && r.limit == s.limit && r.queue == s.queue
    ensures r.pcs == s.pcs[t := Asleep(op)]
  {
    var a := Apply(s, Call(t, op));
    assert Reaches(s0, a) by { ReachMore(s0, s, Call(t, op)); }
    r := SleepWith(s0, a, t);
  }

  /* ---- the phases of the run: thread 0 works, 1..limit push, limit + 1 pops ---- */

  ghost function Threads(n: nat): set<Tid> {
    if n == 0 then {} else Threads(n - 1) + {n - 1}
  }

  lemma {:induction false} ThreadsAre(n: nat)
    ensures forall t: nat :: t in Threads(n) <==> t < n
  {
    if n > 0 {
      ThreadsAre(n - 1);
    }
  }

  /** Threads 1 to `k` are at `a`, the other pushers at `b`, the popper at `c`. */
  ghost predicate Line(s: State, k: nat, a: Pc, b: Pc, c: Pc) {
    && Calm(s) && k <= s.limit
    && (forall t: Tid :: t in s.pcs <==> t < s.limit + 2)
    && s.pcs[0] == Idle && s.pcs[s.limit + 1] == c
    && (forall t :: 1 <= t <= k ==> s.pcs[t] == a)
    && forall t :: k < t <= s.limit ==> s.pcs[t] == b
  }

  lemma {:induction false} FillUp(s0: State, s: State, n: nat) returns (r: State)
    requires Reaches(s0, s) && Line(s, 0, Idle, Idle, Idle) && |s.queue| + n == s.limit
    ensures Reaches(s0, r) && r.limit == s.limit && Line(r, 0, Idle, Idle, Idle) && |r.queue| == r.limit
    decreases n
  {
    hide Reaches;
    r := s;
    if n > 0 {
      forall u | u in s.pcs ensures !s.pcs[u].Asleep? {
        assert u == 0 || u == s.limit + 1 || 0 < u <= s.limit;
      }
      r := PushWith(s0, s, 0, None);
      r := FillUp(s0, r, n - 1);
    }
  }

  lemma {:induction false} PushersSleep(s0: State, s: State, k: nat) returns (r: State)
    requires Reaches(s0, s) && Line(s, k, Asleep(ITEM), Idle, Idle) && |s.queue| == s.limit
    ensures Reaches(s0, r) && r.limit == s.limit && Line(r, r.limit, Asleep(ITEM), Idle, Idle) && |r.queue| == r.limit
    decreases s.limit - k
  {
    hide Reaches;
    r := s;
    if k < s.limit {
      r := CallAndSleep(s0, s, k + 1, ITEM);
      r := PushersSleep(s0, r, k + 1);
    }
  }

  lemma {:induction false} Drain(s0: State, s: State) returns (r: State)
    requires Reaches(s0, s) && Line(s, s.limit, Asleep(ITEM), Idle, Idle)
    ensures Reaches(s0, r) && r.limit == s.limit && Line(r, r.limit, Asleep(ITEM), Idle, Idle) && r.queue == []
    decreases |s.queue|
  {
    hide Reaches;
    r := s;
    if s.queue != [] {
      r := PopWith(s0, s, 0);
      r := Drain(s0, r);
    }
  }

  /** Each push of thread 0 happens to wake the next sleeping pusher. */
  lemma {:induction false} WakePushers(s0: State, s: State, k: nat) returns (r: State)
    requires Reaches(s0, s) && Line(s, k, Wanting(ITEM, true), Asleep(ITEM), Asleep(Pop)) && |s.queue| == k
    ensures Reaches(s0, r) && r.limit == s.limit && |r.queue| == r.limit
    ensures Line(r, r.limit, Wanting(ITEM, true), Asleep(ITEM), Asleep(Pop))
    decreases s.limit - k
  {
    hide Reaches;
    r := s;
    if k < s.limit {
      r := PushWith(s0, s, 0, Some(k + 1));
      r := WakePushers(s0, r, k + 1);
    }
  }

  /** The woken pushers find the queue full and sleep again. */
  lemma {:induction false} PushersSleepAgain(s0: State, s: State, k: nat) returns (r: State)
    requires Reaches(s0, s) && Line(s, k, Asleep(ITEM), Wanting(ITEM, true), Asleep(Pop)) && |s.queue| == s.limit
    ensures Reaches(s0, r) && r.limit == s.limit && |r.queue| == r.limit
    ensures Line(r, r.limit, Asleep(ITEM), Wanting(ITEM, true), Asleep(Pop))
    decreases s.limit - k
  {
    hide Reaches;
    r := s;
    if k < s.limit {
      r := SleepWith(s0, s, k + 1);
      r := PushersSleepAgain(s0, r, k + 1);
    }
  }

  lemma StartLine(limit: nat)
    requires limit > 0
    ensures Line(Init(limit, Threads(limit + 2)), 0, Idle, Idle, Idle)
  {
    ThreadsAre(limit + 2);
    hide Threads;
    var s := Init(limit, Threads(limit + 2));
    forall t: Tid ensures t in s.pcs <==> t < limit + 2 {
      assert t in s.pcs <==> t in Threads(limit + 2);
    }
    assert 0 in s.pcs && limit + 1 in s.pcs;
    forall t: Tid | 0 < t <= limit ensures s.pcs[t] == Idle {
      assert t in s.pcs;
    }
  }

  /** A full queue, a sleeping popper, and nobody left to wake it. */
  lemma BoundedLosesWakeup(limit: nat) returns (r: State)
    requires limit > 0
    ensures Reaches(Init(limit, Threads(limit + 2)), r)
    ensures LostWakeup(r) && |r.queue| == limit
    ensures forall t :: t in r.pcs ==> r.pcs[t].Idle? || r.pcs[t].Asleep?
  {
    hide Reaches, Threads;
    var s0 := Init(limit, Threads(limit + 2));
    StartLine(limit);
    ReachNothing(s0);
    r := FillUp(s0, s0, limit);
    r := PushersSleep(s0, r, 0);
    r := Drain(s0, r);
    r := CallAndSleep(s0, r, limit + 1, Pop);
    r := WakePushers(s0, r, 0);
    r := PushersSleepAgain(s0, r, 0);
    forall t | t in r.pcs ensures r.pcs[t].Idle? || r.pcs[t].Asleep? {
      assert t == 0 || t == limit + 1 || 1 <= t <= limit;
    }
    assert r.pcs[limit + 1].Asleep?;
  }

  /** Wakeups are never lost if and only if the queue is unbounded. */
  lemma NoLostWakeupIffUnbounded(limit: nat)
    ensures (forall threads: set<Tid>, r: State :: Reaches(Init(limit, threads), r) ==> !LostWakeup(r)) <==> limit == 0
  {
    if limit == 0 {
      forall threads: set<Tid>, r: State | Reaches(Init(0, threads), r) ensures !LostWakeup(r) {
        var steps :| Run(Init(0, threads), steps, r);
        NoLostWakeup(threads, steps, r);
      }
    } else {
      var r := BoundedLosesWakeup(limit);
    }
  }

  /** In terms of the constructor's argument: only zero is safe; a negative one is a bound like any other. */
  lemma NoLostWakeupIffMaxSizeZero(maxSize: Int32)
    ensures (forall threads: set<Tid>, r: State :: Reaches(Init(LimitOf(maxSize), threads), r) ==> !LostWakeup(r))
       <==> maxSize == 0
  {
    NoLostWakeupIffUnbounded(LimitOf(maxSize));
  }
}
