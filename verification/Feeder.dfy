/** The feeder protocol: one thread schedules commands and synchronizes, another one runs them. Each command
    is followed by a token that the feeder can only take after the command has finished. */
module Feeder {

  datatype Command =
    | Forward(loops: int)
    | Generate(args: seq<int>)
    | Backward(loops: int, zeroGrad: bool)
    | Optimize
    | StepSchedulers

  datatype Item = Run(command: Command) | Token | Quit

  datatype Worker = Waiting | Running(command: Command) | Ended

  /** `Syncing` is about to look at the queue, `Napping` has found it not empty and will look at the event next. */
  datatype Scheduler = Free | TokenDue | Syncing | Napping | Joining | Closed

  /** `scheduled`, `finished` and `failed` record what happened to the commands. */
  datatype State = State(
    queue: seq<Item>, worker: Worker, scheduler: Scheduler, shutdownEvent: bool,
    scheduled: seq<Command>, finished: seq<Command>, failed: seq<Command>)

  datatype Step =
    | PutCommand(command: Command)
    | PutToken
    | StartSync
    | SyncSeesEmpty    // leaves the loop and goes on to wait for the device
    | SyncNaps         // sleeps, while the queue goes on changing
    | SyncSeesEvent    // returns, whatever the queue holds by now
    | SyncLooksAgain
    | PutQuit
    | Join
    | SetEvent
    | Get
    | GetTimesOut
    | Finish
    | Fail             // the command raises, which ends the thread

  function Init(): State {
    State([], Waiting, Free, false, [], [], [])
  }

  predicate Enabled(s: State, st: Step) {
    match st
    case PutCommand(_) => s.scheduler.Free?
    case PutToken => s.scheduler.TokenDue?
    case StartSync => s.scheduler.Free?
    case SyncSeesEmpty => s.scheduler.Syncing? && s.queue == []
    case SyncNaps => s.scheduler.Syncing? && s.queue != []
    case SyncSeesEvent => s.scheduler.Napping? && s.shutdownEvent
    case SyncLooksAgain => s.scheduler.Napping? && !s.shutdownEvent
    case PutQuit => s.scheduler.Free?
    case Join => s.scheduler.Joining? && s.worker.Ended?
    case SetEvent => true
    case Get => s.worker.Waiting? && s.queue != []
    case GetTimesOut => s.worker.Waiting? && s.queue == [] && s.shutdownEvent
    case Finish => s.worker.Running?
    case Fail => s.worker.Running?
  }

  function Apply(s: State, st: Step): State
    requires Enabled(s, st)
  {
    match st
    case PutCommand(c) => s.(queue := s.queue + [Run(c)], scheduled := s.scheduled + [c], scheduler := TokenDue)
    case PutToken => s.(queue := s.queue + [Token], scheduler := Free)
    case StartSync => s.(scheduler := Syncing)
    case SyncSeesEmpty => s.(scheduler := Free)
    case SyncNaps => s.(scheduler := Napping)
    case SyncSeesEvent => s.(scheduler := Free)
    case SyncLooksAgain => s.(scheduler := Syncing)
    case PutQuit => s.(queue := s.queue + [Quit], scheduler := Joining)
    case Join => s.(scheduler := Closed)
    case SetEvent => s.(shutdownEvent := true)
    case Get =>
      var rest := s.(queue := s.queue[1..]);
      (match s.queue[0]
       case Run(c) => rest.(worker := Running(c))
       case Token => rest
       case Quit => rest.(worker := Ended))
    case GetTimesOut => s.(worker := Ended)
    case Finish => s.(worker := Waiting, finished := s.finished + [s.worker.command])
    case Fail => s.(worker := Ended, failed := s.failed + [s.worker.command])
  }

  ghost predicate Execution(s: State, steps: seq<Step>, r: State)
    decreases |steps|
  {
    if steps == [] then r == s
    else Enabled(s, steps[0]) && Execution(Apply(s, steps[0]), steps[1..], r)
  }

  /* ---- the invariant ---- */

  function Commands(q: seq<Item>): seq<Command> {
    if q == [] then [] else (match q[0] case Run(c) => [c] case _ => []) + Commands(q[1..])
  }

  lemma {:induction false} CommandsAppend(q: seq<Item>, x: Item)
    ensures Commands(q + [x]) == Commands(q) + match x case Run(c) => [c] case _ => []
  {
    if q == [] {
      assert q + [x] == [x];
    } else {
      CommandsAppend(q[1..], x);
      assert (q + [x])[1..] == q[1..] + [x];
    }
  }

  function InFlight(w: Worker): seq<Command> {
    match w case Running(c) => [c] case _ => []
  }

  /** Nothing is lost, repeated or reordered. */
  ghost predicate Accounted(s: State) {
    s.scheduled == s.finished + s.failed + InFlight(s.worker) + Commands(s.queue)
  }

  ghost predicate FollowedAt(q: seq<Item>, i: nat, due: bool)
    requires i < |q|
  {
    q[i].Run? ==> if i + 1 < |q| then q[i + 1] == Token else due
  }

  /** A queued command is directly followed by its token, or the scheduler is about to put it. */
  ghost predicate TokensFollow(s: State) {
    forall i: nat :: i < |s.queue| ==> FollowedAt(s.queue, i, s.scheduler.TokenDue?)
  }

  /** The token of a command that was taken off the queue and has not finished is still to come. */
  ghost predicate TokenAhead(s: State) {
    s.worker.Running? || s.failed != [] ==>
      if s.queue != [] then s.queue[0] == Token else s.scheduler.TokenDue?
  }

  /** "quit" is the last item ever put. */
  ghost predicate QuitLast(s: State) {
    && (forall i :: 0 <= i < |s.queue| && s.queue[i].Quit? ==>
          i == |s.queue| - 1 && (s.scheduler.Joining? || s.scheduler.Closed?))
    && (s.failed != [] ==> s.worker.Ended?)
  }

  /** A worker that neither failed nor gave up on an event ended because of "quit". */
  ghost predicate EndedAtQuit(s: State) {
    s.worker.Ended? && s.failed == [] && !s.shutdownEvent ==> s.queue == [] && (s.scheduler.Joining? || s.scheduler.Closed?)
  }

  /** `join` returns when the worker has ended. */
  ghost predicate ClosedAtEnd(s: State) {
    s.scheduler.Closed? ==> s.worker.Ended?
  }

  ghost predicate Inv(s: State) {
    Accounted(s) && TokensFollow(s) && TokenAhead(s) && QuitLast(s) && EndedAtQuit(s) && ClosedAtEnd(s)
  }

  lemma GetKeepsAccounted(s: State)
    requires Accounted(s) && Enabled(s, Get)
    ensures Accounted(Apply(s, Get))
  {
  }

  lemma PutKeepsAccounted(s: State, x: Item, r: State)
    requires Accounted(s) && r.queue == s.queue + [x] && r.worker == s.worker
    requires r.finished == s.finished && r.failed == s.failed
    requires r.scheduled == s.scheduled + match x case Run(c) => [c] case _ => []
    ensures Accounted(r)
  {
    CommandsAppend(s.queue, x);
  }

  lemma StepKeepsAccounted(s: State, st: Step)
    requires Accounted(s) && QuitLast(s) && Enabled(s, st)
    ensures Accounted(Apply(s, st))
  {
    hide Commands;
    match st
    case PutCommand(c) => PutKeepsAccounted(s, Run(c), Apply(s, st));
    case PutToken => PutKeepsAccounted(s, Token, Apply(s, st));
    case PutQuit => PutKeepsAccounted(s, Quit, Apply(s, st));
    case Get => GetKeepsAccounted(s);
    case _ =>
  }

  lemma GetKeepsTokens(s: State)
    requires TokensFollow(s) && TokenAhead(s) && QuitLast(s) && Enabled(s, Get)
    ensures TokensFollow(Apply(s, Get)) && TokenAhead(Apply(s, Get)) && QuitLast(Apply(s, Get))
  {
    var r := Apply(s, Get);
    assert FollowedAt(s.queue, 0, s.scheduler.TokenDue?);
    forall i: nat | i < |r.queue| ensures FollowedAt(r.queue, i, r.scheduler.TokenDue?) {
      assert FollowedAt(s.queue, i + 1, s.scheduler.TokenDue?);
    }
  }

  lemma PutKeepsTokens(s: State, st: Step)
    requires TokensFollow(s) && TokenAhead(s) && QuitLast(s) && Enabled(s, st)
    requires st.PutCommand? || st.PutToken? || st.PutQuit?
    ensures TokensFollow(Apply(s, st)) && TokenAhead(Apply(s, st)) && QuitLast(Apply(s, st))
  {
    var r := Apply(s, st);
    forall i: nat | i < |r.queue| ensures FollowedAt(r.queue, i, r.scheduler.TokenDue?) {
      if i < |s.queue| {
        assert FollowedAt(s.queue, i, s.scheduler.TokenDue?);
      }
    }
  }

  lemma StepKeepsTokens(s: State, st: Step)
    requires TokensFollow(s) && TokenAhead(s) && QuitLast(s) && Enabled(s, st)
    ensures TokensFollow(Apply(s, st)) && TokenAhead(Apply(s, st)) && QuitLast(Apply(s, st))
  {
    if st.Get? {
      GetKeepsTokens(s);
    } else if st.PutCommand? || st.PutToken? || st.PutQuit? {
      PutKeepsTokens(s, st);
    } else {
      hide FollowedAt;
      forall i: nat | i < |s.queue| ensures FollowedAt(s.queue, i, Apply(s, st).scheduler.TokenDue?) {
        assert FollowedAt(s.queue, i, s.scheduler.TokenDue?);
      }
    }
  }

  lemma StepKeepsEnd(s: State, st: Step)
    requires QuitLast(s) && EndedAtQuit(s) && Enabled(s, st)
    ensures EndedAtQuit(Apply(s, st))
  {
  }

  lemma StepKeepsClosed(s: State, st: Step)
    requires ClosedAtEnd(s) && Enabled(s, st)
    ensures ClosedAtEnd(Apply(s, st))
  {
  }

  lemma StepKeepsInv(s: State, st: Step)
    requires Inv(s) && Enabled(s, st)
    ensures Inv(Apply(s, st))
  {
    hide Apply, Enabled, Accounted, TokensFollow, TokenAhead, QuitLast, EndedAtQuit, ClosedAtEnd;
    StepKeepsAccounted(s, st);
    StepKeepsTokens(s, st);
    StepKeepsEnd(s, st);
    StepKeepsClosed(s, st);
  }

  lemma {:induction false} ExecutionKeepsInv(s: State, steps: seq<Step>, r: State)
    requires Inv(s) && Execution(s, steps, r)
    ensures Inv(r)
    decreases |steps|
  {
    hide Inv, Enabled;
    if steps != [] {
      StepKeepsInv(s, steps[0]);
      ExecutionKeepsInv(Apply(s, steps[0]), steps[1..], r);
    }
  }

  /* ---- what the program relies on ---- */

  /** When `sync` leaves its loop because the queue is empty, every scheduled command has finished:
      none is queued, running or failed. */
  lemma SyncMeansDone(steps: seq<Step>, s: State)
    requires Execution(Init(), steps, s) && Enabled(s, SyncSeesEmpty)
    ensures s.finished == s.scheduled && !s.worker.Running? && s.failed == []
  {
    ExecutionKeepsInv(Init(), steps, s);
  }

  /** At any time the commands that have finished are the first ones scheduled, each once and in order. */
  lemma FinishedIsPrefix(steps: seq<Step>, s: State)
    requires Execution(Init(), steps, s)
    ensures s.finished <= s.scheduled
    ensures |s.scheduled| == |s.finished| + |s.failed| + |InFlight(s.worker)| + |Commands(s.queue)|
  {
    ExecutionKeepsInv(Init(), steps, s);
  }

  /** After `shutdown` has joined the feeder, all commands have run, unless one failed or the event was set. */
  lemma JoinMeansDone(steps: seq<Step>, s: State)
    requires Execution(Init(), steps, s) && s.scheduler.Closed?
    ensures s.worker.Ended? && (s.failed == [] && !s.shutdownEvent ==> s.finished == s.scheduled)
  {
    ExecutionKeepsInv(Init(), steps, s);
  }

  /** A failed command keeps `sync` waiting: the queue never becomes empty again. */
  lemma FailureBlocksSync(steps: seq<Step>, s: State)
    requires Execution(Init(), steps, s) && s.failed != []
    ensures !Enabled(s, SyncSeesEmpty)
  {
    ExecutionKeepsInv(Init(), steps, s);
  }
}
