/** What runs of the feeder protocol lead to: when `sync` comes back, that everything can be finished, and runs step by step. */
module FeederRuns {
  import opened Feeder

  lemma {:induction false} ExecutionJoins(s: State, first: seq<Step>, m: State, second: seq<Step>, r: State)
    requires Execution(s, first, m) && Execution(m, second, r)
    ensures Execution(s, first + second, r)
    decreases |first|
  {
    if first == [] {
      assert first + second == second;
    } else {
      ExecutionJoins(Apply(s, first[0]), first[1..], m, second, r);
      assert (first + second)[1..] == first[1..] + second;
    }
  }

  lemma Then(s: State, st: Step, steps: seq<Step>, r: State)
    requires Enabled(s, st) && Execution(Apply(s, st), steps, r)
    ensures Execution(s, [st] + steps, r)
  {
    assert ([st] + steps)[1..] == steps;
  }

  lemma Stay(s: State)
    ensures Execution(s, [], s)
  {
  }

  /* ---- coming back from `sync` ---- */

  /** When `sync` comes back, every scheduled command has finished or the event has been set. */
  lemma SyncComesBackDone(steps: seq<Step>, s: State, st: Step)
    requires Execution(Init(), steps, s) && Enabled(s, st)
    requires s.scheduler in {Syncing, Napping} && Apply(s, st).scheduler !in {Syncing, Napping}
    ensures Apply(s, st).scheduler == Free
    ensures (s.finished == s.scheduled && s.queue == [] && s.failed == []) || s.shutdownEvent
  {
    if st.SyncSeesEmpty? {
      SyncMeansDone(steps, s);
    }
  }

  /** A step of the scheduling thread itself. */
  predicate Scheduling(st: Step) {
    !(st.SetEvent? || st.Get? || st.GetTimesOut? || st.Finish? || st.Fail?)
  }

  /** With an empty queue `sync` comes back at its next look, ... */
  lemma EmptyEndsSync(s: State, st: Step)
    requires s.scheduler.Syncing? && s.queue == [] && Enabled(s, st) && Scheduling(st)
    ensures Apply(s, st) == s.(scheduler := Free)
  {
  }

  /** ... with a set event behind its next nap, ... */
  lemma EventEndsSync(s: State, st: Step)
    requires s.scheduler.Napping? && s.shutdownEvent && Enabled(s, st) && Scheduling(st)
    ensures Apply(s, st) == s.(scheduler := Free)
  {
  }

  /** ... and otherwise it goes on looking. */
  lemma SyncGoesOn(s: State, st: Step)
    requires s.scheduler in {Syncing, Napping} && s.queue != [] && !s.shutdownEvent && Enabled(s, st) && Scheduling(st)
    ensures Apply(s, st) == s.(scheduler := if s.scheduler.Syncing? then Napping else Syncing)
  {
  }

  /* ---- the thread ends ---- */

  /** The thread takes items in order and ends by "quit", by a command that raises, or at an empty queue by the event. */
  lemma ThreadSteps(s: State, st: Step)
    requires Enabled(s, st) && Apply(s, st).worker != s.worker
    ensures var r := Apply(s, st);
      match s.worker
      case Waiting =>
        if r.worker.Ended?
        then (s.queue != [] && s.queue[0] == Quit && r.queue == s.queue[1..])
             || (s.queue == [] && s.shutdownEvent && r.queue == [])
        else s.queue != [] && r.worker.Running? && s.queue[0] == Run(r.worker.command) && r.queue == s.queue[1..]
      case Running(c) =>
        if r.worker.Ended? then r.failed == s.failed + [c] && r.finished == s.finished
        else r.worker == Waiting && r.finished == s.finished + [c] && r.failed == s.failed
      case Ended => false
  {
  }

  /** Every token in the queue stands behind its command, unless it is the first item. */
  ghost predicate TokensBehindCommands(q: seq<Item>) {
    forall i :: 0 < i < |q| && q[i].Token? ==> q[i - 1].Run?
  }

  lemma {:induction false} TokensStay(s: State, steps: seq<Step>, r: State)
    requires Execution(s, steps, r) && TokensBehindCommands(s.queue)
    requires s.scheduler.TokenDue? ==> s.queue == [] || s.queue[|s.queue| - 1].Run?
    ensures TokensBehindCommands(r.queue)
    decreases |steps|
  {
    if steps != [] {
      TokensStay(Apply(s, steps[0]), steps[1..], r);
    }
  }

  /** At any time. */
  lemma TokensFollowCommands(steps: seq<Step>, s: State)
    requires Execution(Init(), steps, s)
    ensures TokensBehindCommands(s.queue)
  {
    TokensStay(Init(), steps, s);
  }

  /* ---- everything can be finished ---- */

  /** "quit" is in the queue until the thread has taken it. */
  ghost predicate QuitThere(s: State) {
    s.scheduler.Joining? || s.scheduler.Closed? ==> s.worker.Ended? || (s.queue != [] && s.queue[|s.queue| - 1] == Quit)
  }

  lemma {:induction false} QuitStays(s: State, steps: seq<Step>, r: State)
    requires Execution(s, steps, r) && QuitThere(s) && ClosedAtEnd(s)
    ensures QuitThere(r)
    decreases |steps|
  {
    if steps != [] {
      StepKeepsQuit(s, steps[0]);
      QuitStays(Apply(s, steps[0]), steps[1..], r);
    }
  }

  lemma StepKeepsQuit(s: State, st: Step)
    requires QuitThere(s) && ClosedAtEnd(s) && Enabled(s, st)
    ensures QuitThere(Apply(s, st)) && ClosedAtEnd(Apply(s, st))
  {
  }

  function Left(s: State): nat {
    3 * |s.queue| + (if s.worker.Running? then 1 else 0) + (if s.scheduler.TokenDue? then 4 else 0)
  }

  /** At any time before a failure and before the event is set, all that was scheduled can still be finished: then `sync`
      sees an empty queue, and after "quit" the thread has ended. */
  lemma CanFinish(past: seq<Step>, s: State) returns (steps: seq<Step>, r: State)
    requires Execution(Init(), past, s) && s.failed == [] && !s.shutdownEvent
    ensures Execution(s, steps, r) && r.queue == [] && r.finished == r.scheduled == s.scheduled && r.failed == []
    ensures r.scheduler == if s.scheduler.TokenDue? then Free else s.scheduler
    ensures r.worker == if s.scheduler.Joining? || s.scheduler.Closed? then Ended else Waiting
  {
    ExecutionKeepsInv(Init(), past, s);
    QuitStays(Init(), past, s);
    steps, r := Finishing(s);
  }

  lemma {:induction false} Finishing(s: State) returns (steps: seq<Step>, r: State)
    requires Inv(s) && QuitThere(s) && s.failed == [] && !s.shutdownEvent
    ensures Execution(s, steps, r) && r.queue == [] && r.finished == r.scheduled == s.scheduled && r.failed == []
    ensures r.scheduler == if s.scheduler.TokenDue? then Free else s.scheduler
    ensures r.worker == if s.scheduler.Joining? || s.scheduler.Closed? then Ended else Waiting
    decreases Left(s)
  {
    hide Inv, Enabled, Apply, Execution, QuitThere;
    var st := if s.scheduler.TokenDue? then PutToken else if s.worker.Running? then Finish else Get;
    if s.scheduler.TokenDue? || s.worker.Running? || s.queue != [] {
      NextStep(s, st);
      StepKeepsInv(s, st);
      InvClosed(s);
      StepKeepsQuit(s, st);
      var more;
      more, r := Finishing(Apply(s, st));
      steps := [st] + more;
      Then(s, st, more, r);
    } else {
      steps, r := [], s;
      Stay(s);
      NothingLeft(s);
    }
  }

  lemma InvClosed(s: State)
    requires Inv(s)
    ensures ClosedAtEnd(s)
  {
  }

  lemma NextStep(s: State, st: Step)
    requires Inv(s) && s.failed == [] && !s.shutdownEvent && (s.scheduler.TokenDue? || s.worker.Running? || s.queue != [])
    requires st == if s.scheduler.TokenDue? then PutToken else if s.worker.Running? then Finish else Get
    ensures Enabled(s, st)
    ensures var n := Apply(s, st);
      && Left(n) < Left(s) && n.failed == [] && !n.shutdownEvent && n.scheduled == s.scheduled
      && n.scheduler == if s.scheduler.TokenDue? then Free else s.scheduler
  {
  }

  lemma NothingLeft(s: State)
    requires Inv(s) && QuitThere(s) && s.failed == [] && !s.shutdownEvent
    requires !s.scheduler.TokenDue? && !s.worker.Running? && s.queue == []
    ensures s.finished == s.scheduled
    ensures s.worker == if s.scheduler.Joining? || s.scheduler.Closed? then Ended else Waiting
  {
  }

  /* ---- runs step by step ---- */

  lemma Next(start: State, steps: seq<Step>, s: State, st: Step) returns (more: seq<Step>, r: State)
    requires Execution(start, steps, s) && Enabled(s, st)
    ensures more == steps + [st] && r == Apply(s, st) && Execution(start, more, r)
  {
    more, r := steps + [st], Apply(s, st);
    Stay(r);
    Then(s, st, [], r);
    assert [st] + [] == [st];
    ExecutionJoins(start, steps, s, [st], r);
  }

  function BothQueued(c: Command, d: Command): State {
    State([Run(c), Token, Run(d), Token], Waiting, Free, false, [c, d], [], [])
  }

  function OneDone(c: Command, d: Command): State {
    State([Token, Run(d), Token], Waiting, Syncing, false, [c, d], [c], [])
  }

  function BothDone(c: Command, d: Command): State {
    State([], Waiting, Syncing, false, [c, d], [c, d], [])
  }

  function AfterQuit(c: Command, d: Command): State {
    State([], Ended, Closed, false, [c, d], [c, d], [])
  }

  lemma TwoScheduled(c: Command, d: Command)
    ensures Execution(Init(), [PutCommand(c), PutToken, PutCommand(d), PutToken], BothQueued(c, d))
  {
    hide Execution;
    var start, steps: seq<Step> := Init(), [];
    Stay(start);
    var s := start;
    steps, s := Next(start, steps, s, PutCommand(c));
    steps, s := Next(start, steps, s, PutToken);
    steps, s := Next(start, steps, s, PutCommand(d));
    steps, s := Next(start, steps, s, PutToken);
    assert steps == [PutCommand(c), PutToken, PutCommand(d), PutToken];
    assert s == BothQueued(c, d);
  }

  lemma FirstWorked(c: Command, d: Command)
    ensures Execution(BothQueued(c, d), [StartSync, Get, SyncNaps, Finish, SyncLooksAgain], OneDone(c, d))
  {
    hide Execution;
    var start, steps: seq<Step> := BothQueued(c, d), [];
    Stay(start);
    var s := start;
    steps, s := Next(start, steps, s, StartSync);
    steps, s := Next(start, steps, s, Get);
    steps, s := Next(start, steps, s, SyncNaps);
    steps, s := Next(start, steps, s, Finish);
    steps, s := Next(start, steps, s, SyncLooksAgain);
    assert steps == [StartSync, Get, SyncNaps, Finish, SyncLooksAgain];
    assert s == OneDone(c, d);
  }

  lemma SecondWorked(c: Command, d: Command)
    ensures Execution(OneDone(c, d), [Get, Get, Finish, Get], BothDone(c, d))
  {
    hide Execution;
    var start, steps: seq<Step> := OneDone(c, d), [];
    Stay(start);
    var s := start;
    steps, s := Next(start, steps, s, Get);
    steps, s := Next(start, steps, s, Get);
    steps, s := Next(start, steps, s, Finish);
    steps, s := Next(start, steps, s, Get);
    assert steps == [Get, Get, Finish, Get];
    assert s == BothDone(c, d);
  }

  lemma Quitting(c: Command, d: Command)
    ensures Execution(BothDone(c, d), [SyncSeesEmpty, PutQuit, Get, Join], AfterQuit(c, d))
  {
    hide Execution;
    var start, steps: seq<Step> := BothDone(c, d), [];
    Stay(start);
    var s := start;
    steps, s := Next(start, steps, s, SyncSeesEmpty);
    steps, s := Next(start, steps, s, PutQuit);
    steps, s := Next(start, steps, s, Get);
    steps, s := Next(start, steps, s, Join);
    assert steps == [SyncSeesEmpty, PutQuit, Get, Join];
    assert s == AfterQuit(c, d);
  }

  /** Two commands are scheduled and run while `sync` looks, naps and looks again; then the thread quits. */
  lemma WholeRun(c: Command, d: Command)
    ensures Execution(Init(),
      [PutCommand(c), PutToken, PutCommand(d), PutToken, StartSync, Get, SyncNaps, Finish, SyncLooksAgain, Get, Get, Finish, Get,
       SyncSeesEmpty, PutQuit, Get, Join],
      State([], Ended, Closed, false, [c, d], [c, d], []))
  {
    hide Execution;
    var start := [PutCommand(c), PutToken, PutCommand(d), PutToken];
    TwoScheduled(c, d);
    FirstWorked(c, d);
    SecondWorked(c, d);
    Quitting(c, d);
    var b := [StartSync, Get, SyncNaps, Finish, SyncLooksAgain];
    var k, q := [Get, Get, Finish, Get], [SyncSeesEmpty, PutQuit, Get, Join];
    ExecutionJoins(Init(), start, BothQueued(c, d), b, OneDone(c, d));
    ExecutionJoins(Init(), start + b, OneDone(c, d), k, BothDone(c, d));
    ExecutionJoins(Init(), start + b + k, BothDone(c, d), q, AfterQuit(c, d));
    assert start + b + k + q ==
      [PutCommand(c), PutToken, PutCommand(d), PutToken, StartSync, Get, SyncNaps, Finish, SyncLooksAgain, Get, Get, Finish, Get,
       SyncSeesEmpty, PutQuit, Get, Join];
  }

  /** A command raises: the thread has ended, its token stays, and only the event brings `sync` back. */
  lemma FailedRun(c: Command)
    ensures Execution(Init(), [PutCommand(c), PutToken, Get, Fail, StartSync, SyncNaps, SetEvent, SyncSeesEvent],
                      State([Token], Ended, Free, true, [c], [], [c]))
  {
    hide Execution;
    var start, steps: seq<Step> := Init(), [];
    Stay(start);
    var s := start;
    steps, s := Next(start, steps, s, PutCommand(c));
    steps, s := Next(start, steps, s, PutToken);
    steps, s := Next(start, steps, s, Get);
    steps, s := Next(start, steps, s, Fail);
    steps, s := Next(start, steps, s, StartSync);
    steps, s := Next(start, steps, s, SyncNaps);
    steps, s := Next(start, steps, s, SetEvent);
    steps, s := Next(start, steps, s, SyncSeesEvent);
    assert steps == [PutCommand(c), PutToken, Get, Fail, StartSync, SyncNaps, SetEvent, SyncSeesEvent];
    assert s == State([Token], Ended, Free, true, [c], [], [c]);
  }

  /** With nothing to do and the event set the thread ends by itself. */
  lemma TimedOutRun()
    ensures Execution(Init(), [SetEvent, GetTimesOut], State([], Ended, Free, true, [], [], []))
  {
    hide Execution;
    var start, steps: seq<Step> := Init(), [];
    Stay(start);
    var s := start;
    steps, s := Next(start, steps, s, SetEvent);
    steps, s := Next(start, steps, s, GetTimesOut);
    assert steps == [SetEvent, GetTimesOut];
    assert s == State([], Ended, Free, true, [], [], []);
  }
}
