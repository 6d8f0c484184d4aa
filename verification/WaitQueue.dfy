/** The blocking queue as a state machine: one mutex, one condition variable, any number of threads,
    one step per critical action. */
module WaitQueue {
  import opened Wrappers

  type Tid = nat

  datatype Op = Push(value: int, front: bool) | Pop | Clear

  /** Where a thread is inside a call. `woken` tells whether it comes back from the condition variable. */
  datatype Pc =
    | Idle
    | Wanting(op: Op, woken: bool)  // contends for the mutex
    | Holding(op: Op, woken: bool)  // owns the mutex, predicate to be tested
    | Passed(op: Op, woken: bool)   // owns the mutex, predicate was true
    | Notifying                     // owns the mutex, value inserted, notify_one to come
    | Leaving                       // owns the mutex, about to release it
    | Asleep(op: Op)                // waits on the condition variable

  /** `pushed`, `popped` and `dropped` record the history of the contents. */
  datatype State = State(
    limit: nat, queue: seq<int>, lock: Option<Tid>, pcs: map<Tid, Pc>,
    pushed: seq<int>, popped: seq<int>, dropped: multiset<int>)

  datatype Step =
    | Call(t: Tid, op: Op)
    | Acquire(t: Tid)
    | Test(t: Tid)
    | Act(t: Tid)
    | Notify(t: Tid, target: Option<Tid>)
    | Leave(t: Tid)
    | WakeSpuriously(t: Tid)

  /** A 32-bit signed number. */
  type Int32 = i: int | -0x8000_0000 <= i < 0x8000_0000

  const SIZE_T_RANGE: int := 0x1_0000_0000_0000_0000

  /** The bound compared with `size()`: a negative `max_size` is converted to an unsigned number. */
  function LimitOf(maxSize: Int32): nat {
    if maxSize < 0 then maxSize + SIZE_T_RANGE else maxSize
  }

  function Init(limit: nat, threads: set<Tid>): State {
    State(limit, [], None, map t | t in threads :: Idle, [], [], multiset{})
  }

  /** The wait predicate of the call. */
  predicate MayGo(limit: nat, queue: seq<int>, op: Op) {
    match op
    case Push(_, _) => limit == 0 || |queue| < limit
    case Pop => queue != []
    case Clear => true
  }

  predicate Enabled(s: State, st: Step) {
    st.t in s.pcs &&
    var pc := s.pcs[st.t];
    match st
    case Call(_, _) => pc.Idle?
    case Acquire(_) => pc.Wanting? && s.lock == None
    case Test(_) => pc.Holding?
    case Act(_) => pc.Passed? && (pc.op.Pop? ==> s.queue != [])
    case Notify(_, Some(u)) => pc.Notifying? && u in s.pcs && s.pcs[u].Asleep?
    case Notify(_, None) => pc.Notifying? && forall u :: u in s.pcs ==> !s.pcs[u].Asleep?
    case Leave(_) => pc.Leaving?
    case WakeSpuriously(_) => pc.Asleep?
  }

  function Apply(s: State, st: Step): State
    requires Enabled(s, st)
  {
    var t, pc := st.t, s.pcs[st.t];
    match st
    case Call(_, op) => s.(pcs := s.pcs[t := Wanting(op, false)])
    case Acquire(_) => s.(pcs := s.pcs[t := Holding(pc.op, pc.woken)], lock := Some(t))
    case Test(_) =>
      if MayGo(s.limit, s.queue, pc.op) then s.(pcs := s.pcs[t := Passed(pc.op, pc.woken)])
      else s.(pcs := s.pcs[t := Asleep(pc.op)], lock := None)
    case Act(_) =>
      (match pc.op
       case Push(v, front) =>
         s.(pcs := s.pcs[t := Notifying], queue := if front then [v] + s.queue else s.queue + [v],
            pushed := s.pushed + [v])
       case Pop =>
         s.(pcs := s.pcs[t := Leaving], queue := s.queue[1..], popped := s.popped + [s.queue[0]])
       case Clear =>
         s.(pcs := s.pcs[t := Leaving], queue := [], dropped := s.dropped + multiset(s.queue)))
    case Notify(_, target) =>
      (match target
       case None => s.(pcs := s.pcs[t := Leaving])
       case Some(u) => s.(pcs := s.pcs[t := Leaving][u := Wanting(s.pcs[u].op, true)]))
    case Leave(_) => s.(pcs := s.pcs[t := Idle], lock := None)
    case WakeSpuriously(_) => s.(pcs := s.pcs[t := Wanting(pc.op, true)])
  }

  /** `steps` can be taken one after the other from `s` and leads to `r`. */
  ghost predicate Run(s: State, steps: seq<Step>, r: State)
    decreases |steps|
  {
    if steps == [] then r == s
    else Enabled(s, steps[0]) && Run(Apply(s, steps[0]), steps[1..], r)
  }

  /* ---- what every step keeps ---- */

  predicate Owner(pc: Pc) {
    pc.Holding? || pc.Passed? || pc.Notifying? || pc.Leaving?
  }

  /** Mutual exclusion: exactly the owner of the mutex is inside the critical section. */
  ghost predicate Exclusive(s: State) {
    forall t :: t in s.pcs ==> (Owner(s.pcs[t]) <==> s.lock == Some(t))
  }

  /** A predicate that was found true stays true until the thread has acted. */
  ghost predicate StillGood(s: State) {
    forall t :: t in s.pcs && s.pcs[t].Passed? ==> MayGo(s.limit, s.queue, s.pcs[t].op)
  }

  ghost predicate Bounded(s: State) {
    s.limit > 0 ==> |s.queue| <= s.limit
  }

  /** Everything inserted was popped, dropped by `clear`, or is still there. */
  ghost predicate Conserved(s: State) {
    multiset(s.pushed) == multiset(s.popped) + s.dropped + multiset(s.queue)
  }

  /** Without a bound nobody but a popper ever sleeps. */
  ghost predicate SleepersPop(s: State) {
    s.limit == 0 ==> forall t :: t in s.pcs && s.pcs[t].Asleep? ==> s.pcs[t].op.Pop?
  }

  predicate WokenPopper(pc: Pc) {
    (pc.Wanting? || pc.Holding? || pc.Passed?) && pc.woken && pc.op.Pop?
  }

  ghost function Woken(pcs: map<Tid, Pc>): set<Tid> {
    set t | t in pcs && WokenPopper(pcs[t])
  }

  ghost function Notifiers(pcs: map<Tid, Pc>): set<Tid> {
    set t | t in pcs && pcs[t].Notifying?
  }

  predicate SomePopperSleeps(pcs: map<Tid, Pc>) {
    exists t :: t in pcs && pcs[t].Asleep? && pcs[t].op.Pop?
  }

  /** No lost wakeup: a popper only sleeps while every queued item is claimed by a woken popper
      or by a notification that is about to be sent. */
  ghost predicate Covered(s: State) {
    s.limit == 0 && SomePopperSleeps(s.pcs) ==> |s.queue| <= |Woken(s.pcs)| + |Notifiers(s.pcs)|
  }

  ghost predicate Inv(s: State) {
    Exclusive(s) && StillGood(s) && Bounded(s) && Conserved(s) && SleepersPop(s) && Covered(s)
  }

  lemma InitInv(limit: nat, threads: set<Tid>)
    ensures Inv(Init(limit, threads))
  {
  }

  lemma WokenChange(pcs: map<Tid, Pc>, t: Tid, pc: Pc)
    requires t in pcs
    ensures |Woken(pcs[t := pc])| ==
      |Woken(pcs)| - (if WokenPopper(pcs[t]) then 1 else 0) + (if WokenPopper(pc) then 1 else 0)
  {
    var rest := Woken(pcs) - {t};
    assert Woken(pcs[t := pc]) == if WokenPopper(pc) then rest + {t} else rest;
    assert Woken(pcs) == if WokenPopper(pcs[t]) then rest + {t} else rest;
  }

  lemma NotifierChange(pcs: map<Tid, Pc>, t: Tid, pc: Pc)
    requires t in pcs
    ensures |Notifiers(pcs[t := pc])| ==
      |Notifiers(pcs)| - (if pcs[t].Notifying? then 1 else 0) + (if pc.Notifying? then 1 else 0)
  {
    var rest := Notifiers(pcs) - {t};
    assert Notifiers(pcs[t := pc]) == if pc.Notifying? then rest + {t} else rest;
    assert Notifiers(pcs) == if pcs[t].Notifying? then rest + {t} else rest;
  }

  lemma StepKeepsExclusive(s: State, st: Step)
    requires Enabled(s, st) && Exclusive(s) && StillGood(s)
    ensures Exclusive(Apply(s, st)) && StillGood(Apply(s, st))
  {
  }

  lemma StepKeepsBounded(s: State, st: Step)
    requires Enabled(s, st) && StillGood(s) && Bounded(s)
    ensures Bounded(Apply(s, st))
  {
  }

  lemma PushCount(q: seq<int>, v: int)
    ensures multiset([v] + q) == multiset(q) + multiset{v} == multiset(q + [v])
  {
  }

  lemma PopCount(q: seq<int>)
    requires q != []
    ensures multiset(q) == multiset{q[0]} + multiset(q[1..])
  {
    assert q == [q[0]] + q[1..];
  }

  lemma StepKeepsConserved(s: State, st: Step)
    requires Enabled(s, st) && Conserved(s)
    ensures Conserved(Apply(s, st))
  {
    if st.Act? {
      match s.pcs[st.t].op
      case Push(v, _) =>
        PushCount(s.queue, v);
        PushCount(s.pushed, v);
      case Pop =>
        PopCount(s.queue);
        assert multiset(s.popped + [s.queue[0]]) == multiset(s.popped) + multiset{s.queue[0]};
      case Clear =>
    }
  }

  lemma StepKeepsSleepers(s: State, st: Step)
    requires Enabled(s, st) && SleepersPop(s)
    ensures SleepersPop(Apply(s, st))
  {
  }

  lemma StepKeepsCovered(s: State, st: Step)
    requires Enabled(s, st) && Exclusive(s) && StillGood(s) && SleepersPop(s) && Covered(s)
    ensures Covered(Apply(s, st))
  {
    hide Woken, Notifiers, Exclusive;
    var r := Apply(s, st);
    var t, pc := st.t, s.pcs[st.t];
    if s.limit == 0 && SomePopperSleeps(r.pcs) {
      WokenChange(s.pcs, t, r.pcs[t]);
      NotifierChange(s.pcs, t, r.pcs[t]);
      if st.Notify? && st.target.Some? {
        var u, mid := st.target.value, s.pcs[t := Leaving];
        WokenChange(s.pcs, t, Leaving);
        NotifierChange(s.pcs, t, Leaving);
        WokenChange(mid, u, r.pcs[u]);
        NotifierChange(mid, u, r.pcs[u]);
        assert SomePopperSleeps(s.pcs);
      } else {
        assert r.pcs == s.pcs[t := r.pcs[t]];
        if !(st.Test? && r.pcs[t].Asleep?) {
          assert SomePopperSleeps(s.pcs);
        }
      }
    }
  }

  lemma StepKeepsInv(s: State, st: Step)
    requires Enabled(s, st) && Inv(s)
    ensures Inv(Apply(s, st))
  {
    hide Enabled, Apply, Exclusive, StillGood, Bounded, Conserved, SleepersPop, Covered;
    StepKeepsExclusive(s, st);
    StepKeepsBounded(s, st);
    StepKeepsConserved(s, st);
    StepKeepsSleepers(s, st);
    StepKeepsCovered(s, st);
  }

  lemma {:induction false} RunKeepsInv(s: State, steps: seq<Step>, r: State)
    requires Inv(s) && Run(s, steps, r)
    ensures Inv(r) && r.limit == s.limit
    decreases |steps|
  {
    hide Inv, Enabled;
    if steps != [] {
      StepKeepsInv(s, steps[0]);
      RunKeepsInv(Apply(s, steps[0]), steps[1..], r);
    }
  }

  /* ---- consequences for every run ---- */

  /** A popper sleeps beside a value while nobody is on the way back from a wait for one and no notification is pending. */
  ghost predicate LostWakeup(s: State) {
    && (forall t :: t in s.pcs ==> s.pcs[t] !in {Wanting(Pop, true), Holding(Pop, true), Passed(Pop, true), Notifying})
    && (exists t :: t in s.pcs && s.pcs[t] == Asleep(Pop)) && s.queue != []
  }

  /** With `max_size == 0`, in every interleaving, with spurious wakeups and `clear`: as long as a popper
      sleeps there are at most as many items as woken poppers and pending notifications. */
  lemma NoLostWakeup(threads: set<Tid>, steps: seq<Step>, r: State)
    requires Run(Init(0, threads), steps, r)
    ensures SomePopperSleeps(r.pcs) ==> |r.queue| <= |Woken(r.pcs)| + |Notifiers(r.pcs)|
    ensures |Notifiers(r.pcs)| <= 1
    ensures !LostWakeup(r)
  {
    InitInv(0, threads);
    RunKeepsInv(Init(0, threads), steps, r);
    hide StillGood, Bounded, Conserved, SleepersPop;
    OneNotifier(r);
    if forall t :: t in r.pcs ==> r.pcs[t] !in {Wanting(Pop, true), Holding(Pop, true), Passed(Pop, true), Notifying} {
      assert Woken(r.pcs) == {} && Notifiers(r.pcs) == {};
    }
  }

  lemma OneNotifier(s: State)
    requires Exclusive(s)
    ensures |Notifiers(s.pcs)| <= 1
  {
    if s.lock.Some? {
      assert Notifiers(s.pcs) <= {s.lock.value};
      if s.lock.value in Notifiers(s.pcs) {
        assert Notifiers(s.pcs) == {s.lock.value};
      }
    } else {
      assert Notifiers(s.pcs) == {};
    }
  }

  /** For any bound: the bound holds, nothing is lost or invented, and one thread at a time is inside. */
  lemma ContentsSafe(limit: nat, threads: set<Tid>, steps: seq<Step>, r: State)
    requires Run(Init(limit, threads), steps, r)
    ensures limit > 0 ==> |r.queue| <= limit
    ensures multiset(r.pushed) == multiset(r.popped) + r.dropped + multiset(r.queue)
    ensures forall t, u :: t in r.pcs && u in r.pcs && Owner(r.pcs[t]) && Owner(r.pcs[u]) ==> t == u
  {
    InitInv(limit, threads);
    RunKeepsInv(Init(limit, threads), steps, r);
  }

  predicate Plain(op: Op) {
    op.Pop? || (op.Push? && !op.front)
  }

  ghost predicate OpsPlain(s: State) {
    forall t :: t in s.pcs && (s.pcs[t].Wanting? || s.pcs[t].Holding? || s.pcs[t].Passed? || s.pcs[t].Asleep?)
      ==> Plain(s.pcs[t].op)
  }

  lemma StepKeepsOrder(s: State, st: Step)
    requires Enabled(s, st) && (st.Call? ==> Plain(st.op))
    requires OpsPlain(s) && s.pushed == s.popped + s.queue
    ensures OpsPlain(Apply(s, st)) && Apply(s, st).pushed == Apply(s, st).popped + Apply(s, st).queue
  {
    if st.Act? && s.pcs[st.t].op.Pop? {
      assert s.popped + s.queue == s.popped + [s.queue[0]] + s.queue[1..];
    }
  }

  lemma {:induction false} RunKeepsOrder(s: State, steps: seq<Step>, r: State)
    requires Run(s, steps, r) && forall i :: 0 <= i < |steps| && steps[i].Call? ==> Plain(steps[i].op)
    requires OpsPlain(s) && s.pushed == s.popped + s.queue
    ensures r.pushed == r.popped + r.queue
    decreases |steps|
  {
    hide OpsPlain, Enabled;
    if steps != [] {
      StepKeepsOrder(s, steps[0]);
      RunKeepsOrder(Apply(s, steps[0]), steps[1..], r);
    }
  }

  /** Without `push_front` and `clear`, values leave in the order in which they were inserted. */
  lemma FirstInFirstOut(limit: nat, threads: set<Tid>, steps: seq<Step>, r: State)
    requires Run(Init(limit, threads), steps, r)
    requires forall i :: 0 <= i < |steps| && steps[i].Call? ==> steps[i].op != Clear && (steps[i].op.Push? ==> !steps[i].op.front)
    ensures r.pushed == r.popped + r.queue
  {
    RunKeepsOrder(Init(limit, threads), steps, r);
  }

  /** Steps that leave the contents alone: nobody pushes, pops or clears. */
  lemma {:induction false} ContentsStay(s: State, steps: seq<Step>, r: State)
    requires Run(s, steps, r) && forall i :: 0 <= i < |steps| ==> !steps[i].Act?
    ensures r.queue == s.queue && r.popped == s.popped
    decreases |steps|
  {
    hide Enabled;
    if steps != [] {
      ContentsStay(Apply(s, steps[0]), steps[1..], r);
    }
  }

  /** A value pushed in front is the next one popped, whatever was queued, as long as nothing else changes the contents. */
  lemma FrontLeavesNext(s: State, t: Tid, v: int, steps: seq<Step>, m: State, u: Tid)
    requires Enabled(s, Act(t)) && s.pcs[t].op == Push(v, true)
    requires Run(Apply(s, Act(t)), steps, m) && forall i :: 0 <= i < |steps| ==> !steps[i].Act?
    requires Enabled(m, Act(u)) && m.pcs[u].op == Pop
    ensures Apply(m, Act(u)).popped == s.popped + [v] && Apply(m, Act(u)).queue == s.queue
  {
    ContentsStay(Apply(s, Act(t)), steps, m);
    assert ([v] + s.queue)[1..] == s.queue;
  }
}
