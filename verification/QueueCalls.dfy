/** What one undisturbed call does to the queue, step by step, from any state in which the mutex is free. */
module QueueCalls {
  import opened WaitQueue
  import opened BoundedQueue
  import opened Wrappers

  /** The thread is outside of every call and nobody owns the mutex. */
  ghost predicate Ready(s: State, t: Tid) {
    t in s.pcs && s.pcs[t] == Idle && s.lock == None
  }

  /** The call is made, the mutex is taken and the wait predicate is tested. */
  lemma Entered(s: State, t: Tid, op: Op) returns (r: State)
    requires Ready(s, t)
    ensures Run(s, [Call(t, op), Acquire(t), Test(t)], r)
    ensures r == if MayGo(s.limit, s.queue, op) then s.(pcs := s.pcs[t := Passed(op, false)], lock := Some(t))
                 else s.(pcs := s.pcs[t := Asleep(op)])
  {
    var a := Apply(s, Call(t, op));
    var b := Apply(a, Acquire(t));
    r := Apply(b, Test(t));
    ThreeSteps(s, Call(t, op), a, Acquire(t), b, Test(t), r);
  }

  lemma ThreeSteps(s: State, x: Step, a: State, y: Step, b: State, z: Step, r: State)
    requires Enabled(s, x) && a == Apply(s, x) && Enabled(a, y) && b == Apply(a, y) && Enabled(b, z) && r == Apply(b, z)
    ensures Run(s, [x, y, z], r)
  {
    hide Enabled, Apply;
    assert [x, y, z][1..] == [y, z] && [y, z][1..] == [z] && [z][1..] == [];
    assert Run(r, [], r);
    assert Run(b, [z], r);
    assert Run(a, [y, z], r);
  }

  lemma TwoSteps(s: State, x: Step, a: State, y: Step, r: State)
    requires Enabled(s, x) && a == Apply(s, x) && Enabled(a, y) && r == Apply(a, y)
    ensures Run(s, [x, y], r)
  {
    hide Enabled, Apply;
    assert [x, y][1..] == [y] && [y][1..] == [];
    assert Run(r, [], r);
    assert Run(a, [y], r);
  }

  /** A push that finds room puts the value at the end it was asked for and wakes `target`, if anybody sleeps. */
  lemma Pushed(s: State, t: Tid, v: int, front: bool, target: Option<Tid>) returns (r: State)
    requires Ready(s, t) && (s.limit == 0 || |s.queue| < s.limit)
    requires match target case None => forall u :: u in s.pcs ==> !s.pcs[u].Asleep? case Some(u) => u in s.pcs && s.pcs[u].Asleep?
    ensures Run(s, [Call(t, Push(v, front)), Acquire(t), Test(t)] + [Act(t), Notify(t, target), Leave(t)], r)
    ensures r == s.(queue := if front then [v] + s.queue else s.queue + [v], pushed := s.pushed + [v],
                    pcs := match target case None => s.pcs case Some(u) => s.pcs[u := Wanting(s.pcs[u].op, true)])
  {
    var c := Entered(s, t, Push(v, front));
    var d := Apply(c, Act(t));
    var e := Apply(d, Notify(t, target));
    r := Apply(e, Leave(t));
    ThreeSteps(c, Act(t), d, Notify(t, target), e, Leave(t), r);
    RunJoins(s, [Call(t, Push(v, front)), Acquire(t), Test(t)], c, [Act(t), Notify(t, target), Leave(t)], r);
  }

  /** A pop that finds a value takes the first one and wakes nobody. */
  lemma Popped(s: State, t: Tid) returns (r: State)
    requires Ready(s, t) && s.queue != []
    ensures Run(s, [Call(t, Pop), Acquire(t), Test(t)] + [Act(t), Leave(t)], r)
    ensures r == s.(queue := s.queue[1..], popped := s.popped + [s.queue[0]])
  {
    var c := Entered(s, t, Pop);
    var d := Apply(c, Act(t));
    r := Apply(d, Leave(t));
    TwoSteps(c, Act(t), d, Leave(t), r);
    RunJoins(s, [Call(t, Pop), Acquire(t), Test(t)], c, [Act(t), Leave(t)], r);
  }

  /** Clearing never waits, drops everything and wakes nobody. */
  lemma Cleared(s: State, t: Tid) returns (r: State)
    requires Ready(s, t)
    ensures Run(s, [Call(t, Clear), Acquire(t), Test(t)] + [Act(t), Leave(t)], r)
    ensures r == s.(queue := [], dropped := s.dropped + multiset(s.queue))
  {
    var c := Entered(s, t, Clear);
    var d := Apply(c, Act(t));
    r := Apply(d, Leave(t));
    TwoSteps(c, Act(t), d, Leave(t), r);
    RunJoins(s, [Call(t, Clear), Acquire(t), Test(t)], c, [Act(t), Leave(t)], r);
  }

  /** A thread waits inside its call exactly for room or for a value, leaving the mutex free and everything else alone. */
  lemma Waits(s: State, t: Tid, op: Op) returns (r: State)
    requires Ready(s, t)
    requires match op case Push(_, _) => s.limit > 0 && |s.queue| >= s.limit case Pop => s.queue == [] case Clear => false
    ensures Run(s, [Call(t, op), Acquire(t), Test(t)], r) && r == s.(pcs := s.pcs[t := Asleep(op)])
  {
    r := Entered(s, t, op);
  }

  /** A sleeper that wakes without a reason tests again, finds nothing changed and goes back to sleep. */
  lemma SpuriousWakeup(s: State, t: Tid) returns (r: State)
    requires t in s.pcs && s.pcs[t].Asleep? && s.lock == None && !MayGo(s.limit, s.queue, s.pcs[t].op)
    ensures Run(s, [WakeSpuriously(t), Acquire(t), Test(t)], r) && r == s
  {
    var a := Apply(s, WakeSpuriously(t));
    var b := Apply(a, Acquire(t));
    r := Apply(b, Test(t));
    ThreeSteps(s, WakeSpuriously(t), a, Acquire(t), b, Test(t), r);
    assert s.pcs[t := Asleep(s.pcs[t].op)] == s.pcs;
  }

  /** The mutex is taken by one thread at a time, and nobody goes on without it. */
  lemma OnlyTheOwnerActs(s: State, st: Step)
    requires Exclusive(s) && Enabled(s, st)
    ensures st.Acquire? ==> forall u :: u in s.pcs ==> !Owner(s.pcs[u])
    ensures st.Test? || st.Act? || st.Notify? || st.Leave? ==> s.lock == Some(st.t)
    ensures Apply(s, st).queue != s.queue ==> s.lock == Some(st.t) && s.pcs[st.t].Passed?
  {
  }

  /** A bound is compared as an unsigned 64-bit number: the one that is congruent to it. */
  lemma BoundIsUnsigned(maxSize: Int32)
    ensures LimitOf(maxSize) < 0x1_0000_0000_0000_0000
    ensures (LimitOf(maxSize) - maxSize) % 0x1_0000_0000_0000_0000 == 0
    ensures LimitOf(-1) == 18446744073709551615
  {
  }
}
