/** One MT5 bridge task as a protocol over its task, queue and arbiter keys: callers enqueue and wait, executors must
    win the arbiter key before they act, and every Redis command is a step of its own. */
module BridgeProtocol {
  import opened Common

  /** The fields that must agree before a stored task is reused. */
  datatype Identity = Identity(version: nat, digest: string, account: string, profile: string, login: nat, server: string,
                               action: string, originKey: string)

  datatype Status = Pending | Running | Finished | Failed | Uncertain | Cancelled

  datatype Task = Task(identity: Identity, status: Status)

  /** Who took the arbiter key with set-if-absent. */
  datatype Claim = Free | ByWaiter | ByExecutor(executor: nat)

  /** Where a caller of `executeMt5BridgeAction` stands. */
  datatype Phase =
    | Out
    | Reading(identity: Identity)
    | Looking(current: Task)
    | Removing(current: Task)
    | Pushing(current: Task)
    | Waiting(current: Task)
    | GivingUp(current: Task)
    | Cancelling(current: Task)
    | Unqueueing(current: Task)
    | Reported(current: Task)
    | Conflict(identity: Identity)

  /** What an executor knows: the task as it read it, and whether its set-if-absent succeeded. */
  datatype Executor = Executor(held: Option<Task>, won: bool)

  /** One execution of a task at the broker. */
  datatype Execution = Execution(executor: nat, identity: Identity)

  datatype State = State(task: Option<Task>, queue: nat, arbiter: Claim, callers: map<nat, Phase>,
                         executors: map<nat, Executor>, runs: seq<Execution>)

  datatype Event =
    | Create(caller: nat, identity: Identity)
    | ReadBack(caller: nat)
    | LookAtArbiter(caller: nat)
    | Remove(caller: nat)
    | Push(caller: nat)
    | Poll(caller: nat)
    | LastPoll(caller: nat)
    | TryCancel(caller: nat)
    | WriteCancelled(caller: nat)
    | Unqueue(caller: nat)
    | Pop
    | Take(executor: nat)
    | Win(executor: nat)
    | Run(executor: nat)
    | Write(executor: nat, status: Status)

  function PhaseOf(s: State, caller: nat): Phase {
    if caller in s.callers then s.callers[caller] else Out
  }

  function ExecutorOf(s: State, executor: nat): Executor {
    if executor in s.executors then s.executors[executor] else Executor(None, false)
  }

  /** All that is assumed of an executor: it acts on a task it has read, after its own set-if-absent succeeded. */
  predicate MayAct(x: Executor) {
    x.won && x.held.Some?
  }

  predicate Terminal(status: Status) {
    status in {Finished, Failed, Uncertain, Cancelled}
  }

  predicate Enabled(s: State, e: Event) {
    match e
    case Create(caller, _) => PhaseOf(s, caller).Out?
    case ReadBack(caller) => PhaseOf(s, caller).Reading?
    case LookAtArbiter(caller) => PhaseOf(s, caller).Looking?
    case Remove(caller) => PhaseOf(s, caller).Removing?
    case Push(caller) => PhaseOf(s, caller).Pushing?
    case Poll(caller) => PhaseOf(s, caller).Waiting?
    case LastPoll(caller) => PhaseOf(s, caller).Waiting?
    case TryCancel(caller) => PhaseOf(s, caller).GivingUp?
    case WriteCancelled(caller) => PhaseOf(s, caller).Cancelling?
    case Unqueue(caller) => PhaseOf(s, caller).Unqueueing?
    case Pop => s.queue > 0
    case Take(_) => s.task.Some?
    case Win(executor) => ExecutorOf(s, executor).held.Some?
    case Run(executor) => MayAct(ExecutorOf(s, executor))
    case Write(executor, status) => MayAct(ExecutorOf(s, executor)) && status in {Running, Finished, Failed, Uncertain}
  }

  /** The stored task, or the last one seen where there is none. */
  function Seen(s: State, current: Task): Task {
    match s.task case None => current case Some(t) => t
  }

  function AfterCreate(task: Task): Phase {
    if task.status == Pending then Looking(task) else Waiting(task)
  }

  function Put(s: State, caller: nat, phase: Phase): State {
    s.(callers := s.callers[caller := phase])
  }

  function Know(s: State, executor: nat, x: Executor): State {
    s.(executors := s.executors[executor := x])
  }

  function Next(s: State, e: Event): State
    requires Enabled(s, e)
  {
    match e
    case Create(caller, identity) =>
      if s.task.None? then Put(s, caller, Looking(Task(identity, Pending))).(task := Some(Task(identity, Pending)))
      else Put(s, caller, Reading(identity))
    case ReadBack(caller) =>
      var identity := PhaseOf(s, caller).identity;
      Put(s, caller, match s.task
                     case None => Conflict(identity)
                     case Some(t) => if t.identity != identity then Conflict(identity) else AfterCreate(t))
    case LookAtArbiter(caller) =>
      var current := PhaseOf(s, caller).current;
      Put(s, caller, if s.arbiter.Free? then Removing(current) else Waiting(current))
    case Remove(caller) => Put(s, caller, Pushing(PhaseOf(s, caller).current)).(queue := 0)
    case Push(caller) => Put(s, caller, Waiting(PhaseOf(s, caller).current)).(queue := s.queue + 1)
    case Poll(caller) =>
      var current := Seen(s, PhaseOf(s, caller).current);
      Put(s, caller, if Terminal(current.status) then Reported(current) else Waiting(current))
    case LastPoll(caller) =>
      var current := Seen(s, PhaseOf(s, caller).current);
      Put(s, caller, if Terminal(current.status) then Reported(current) else GivingUp(current))
    case TryCancel(caller) =>
      var current := PhaseOf(s, caller).current;
      Put(s, caller, if s.arbiter.Free? && current.status == Pending then Cancelling(current)
                     else Reported(current.(status := Uncertain)))
        .(arbiter := if s.arbiter.Free? then ByWaiter else s.arbiter)
    case WriteCancelled(caller) =>
      var next := PhaseOf(s, caller).current.(status := Cancelled);
      Put(s, caller, Unqueueing(next)).(task := Some(next))
    case Unqueue(caller) => Put(s, caller, Reported(PhaseOf(s, caller).current)).(queue := 0)
    case Pop => s.(queue := s.queue - 1)
    case Take(executor) => Know(s, executor, ExecutorOf(s, executor).(held := s.task))
    case Win(executor) =>
      if s.arbiter.Free? then Know(s, executor, ExecutorOf(s, executor).(won := true)).(arbiter := ByExecutor(executor)) else s
    case Run(executor) => s.(runs := s.runs + [Execution(executor, ExecutorOf(s, executor).held.value.identity)])
    case Write(executor, status) => s.(task := Some(ExecutorOf(s, executor).held.value.(status := status)))
  }

  const START := State(None, 0, Free, map[], map[], [])

  // ---- The invariant ----

  /** A caller that has been let in saw the stored task, and one that has cancelled holds the arbiter's verdict. */
  predicate PhaseOk(s: State, phase: Phase) {
    match phase
    case Out => true
    case Conflict(identity) => s.task.Some? && s.task.value.identity != identity
    case Reading(_) => s.task.Some?
    case Cancelling(current) => Owns(s, current) && s.arbiter.ByWaiter?
    case Unqueueing(current) => Owns(s, current) && s.arbiter.ByWaiter? && current.status == Cancelled
    case _ => Owns(s, phase.current) && StatusOk(s, phase.current.status) && (phase.Reported? ==> Terminal(phase.current.status))
  }

  predicate Owns(s: State, current: Task) {
    s.task.Some? && s.task.value.identity == current.identity
  }

  /** What a status says about the arbiter. A caller's own `uncertain` says nothing. */
  predicate StatusOk(s: State, status: Status) {
    match status
    case Pending => true
    case Running => s.arbiter.ByExecutor?
    case Finished => s.arbiter.ByExecutor?
    case Failed => s.arbiter.ByExecutor?
    case Uncertain => !s.arbiter.Free?
    case Cancelled => s.arbiter.ByWaiter?
  }

  /** An executor holds the stored task, and only the one the arbiter names believes that it won. */
  predicate ExecutorOk(s: State, executor: nat, x: Executor) {
    && (x.held.Some? ==> Owns(s, x.held.value))
    && (x.won ==> s.arbiter == ByExecutor(executor))
  }

  /** An execution of the stored task by the executor the arbiter names. */
  predicate RunOk(s: State, r: Execution) {
    s.task.Some? && r.identity == s.task.value.identity && s.arbiter == ByExecutor(r.executor)
  }

  ghost predicate Inv(s: State) {
    && (forall c :: c in s.callers ==> PhaseOk(s, s.callers[c]))
    && (forall x :: x in s.executors ==> ExecutorOk(s, x, s.executors[x]))
    && (forall r :: r in s.runs ==> RunOk(s, r))
    && (s.task.Some? ==> StatusOk(s, s.task.value.status))
    && (!s.arbiter.Free? ==> s.task.Some?)
  }

  /** What no step undoes: the stored identity, the arbiter's verdict, the executions. */
  predicate Onward(s: State, t: State) {
    && (s.task.Some? ==> t.task.Some? && t.task.value.identity == s.task.value.identity)
    && (s.arbiter.Free? || t.arbiter == s.arbiter)
    && s.runs <= t.runs
  }

  predicate ByExecutorStep(e: Event) {
    e.Pop? || e.Take? || e.Win? || e.Run? || e.Write?
  }

  lemma StepGoesOnward(s: State, e: Event)
    requires Inv(s) && Enabled(s, e)
    ensures Onward(s, Next(s, e))
  {
    if e.WriteCancelled? { assert PhaseOk(s, PhaseOf(s, e.caller)); }
    if e.Write? { assert ExecutorOk(s, e.executor, ExecutorOf(s, e.executor)); }
  }

  lemma PhasesStayOk(s: State, t: State, phase: Phase)
    requires Onward(s, t) && PhaseOk(s, phase)
    ensures PhaseOk(t, phase)
  {
  }

  /** Executors that learn nothing, and past executions, stay right. */
  lemma ExecutorsStayOk(s: State, t: State)
    requires Inv(s) && Onward(s, t) && t.executors == s.executors && t.runs == s.runs
    ensures forall x :: x in t.executors ==> ExecutorOk(t, x, t.executors[x])
    ensures forall r :: r in t.runs ==> RunOk(t, r)
  {
    hide PhaseOk;
    forall x | x in t.executors ensures ExecutorOk(t, x, t.executors[x]) {
      assert ExecutorOk(s, x, s.executors[x]);
    }
  }

  /** The caller's own new phase, and what a caller writes into the task and the arbiter key. */
  lemma CallerMovesRight(s: State, e: Event)
    requires Inv(s) && Enabled(s, e) && !ByExecutorStep(e)
    ensures
      var t := Next(s, e);
      && e.caller in t.callers && PhaseOk(t, t.callers[e.caller])
      && (t.task.Some? ==> StatusOk(t, t.task.value.status)) && (!t.arbiter.Free? ==> t.task.Some?)
  {
    assert PhaseOk(s, PhaseOf(s, e.caller));
    assert s.arbiter.Free? || s.task.Some?;
    assert s.task.Some? ==> StatusOk(s, s.task.value.status);
    hide ExecutorOk, RunOk, Inv;
  }

  lemma CallerStepKeepsInv(s: State, e: Event)
    requires Inv(s) && Enabled(s, e) && !ByExecutorStep(e)
    ensures Inv(Next(s, e))
  {
    StepGoesOnward(s, e);
    var t := Next(s, e);
    assert t.executors == s.executors && t.runs == s.runs;
    assert t.callers.Keys <= s.callers.Keys + {e.caller};
    assert forall c :: c in t.callers && c != e.caller ==> t.callers[c] == s.callers[c];
    CallerMovesRight(s, e);
    hide PhaseOk, ExecutorOk, RunOk, StatusOk, Next, Enabled, Onward;
    ExecutorsStayOk(s, t);
    forall c | c in t.callers ensures PhaseOk(t, t.callers[c]) {
      if c != e.caller {
        assert t.callers[c] == s.callers[c];
        PhasesStayOk(s, t, s.callers[c]);
      }
    }
  }

  lemma ExecutorStepKeepsInv(s: State, e: Event)
    requires Inv(s) && Enabled(s, e) && ByExecutorStep(e)
    ensures Inv(Next(s, e))
  {
    StepGoesOnward(s, e);
    var t := Next(s, e);
    hide PhaseOk;
    forall c | c in t.callers ensures PhaseOk(t, t.callers[c]) {
      PhasesStayOk(s, t, s.callers[c]);
    }
    forall x | x in t.executors ensures ExecutorOk(t, x, t.executors[x]) {
      assert ExecutorOk(s, x, ExecutorOf(s, x));
    }
    if !e.Pop? { assert ExecutorOk(s, e.executor, ExecutorOf(s, e.executor)); }
  }

  lemma StepKeepsInv(s: State, e: Event)
    requires Inv(s) && Enabled(s, e)
    ensures Inv(Next(s, e)) && Onward(s, Next(s, e))
  {
    hide *;
    StepGoesOnward(s, e);
    if ByExecutorStep(e) { ExecutorStepKeepsInv(s, e); } else { CallerStepKeepsInv(s, e); }
  }

  // ---- Whole runs ----

  ghost predicate Trace(ss: seq<State>, es: seq<Event>) {
    |ss| == |es| + 1 && ss[0] == START
    && forall i :: 0 <= i < |es| ==> Enabled(ss[i], es[i]) && ss[i + 1] == Next(ss[i], es[i])
  }

  lemma {:induction false} TraceInv(ss: seq<State>, es: seq<Event>, i: nat)
    requires Trace(ss, es) && i < |ss|
    ensures Inv(ss[i])
  {
    hide Next, Enabled;
    if i > 0 {
      TraceInv(ss, es, i - 1);
      StepKeepsInv(ss[i - 1], es[i - 1]);
    }
  }

  lemma {:induction false} TraceOnward(ss: seq<State>, es: seq<Event>, i: nat, j: nat)
    requires Trace(ss, es) && i <= j < |ss|
    ensures Onward(ss[i], ss[j])
    decreases j
  {
    hide Next, Enabled;
    if i < j {
      TraceOnward(ss, es, i, j - 1);
      TraceInv(ss, es, j - 1);
      StepKeepsInv(ss[j - 1], es[j - 1]);
    }
  }

  /** A task that was reported cancelled has never been run and never will be. */
  lemma CancelledNeverRuns(ss: seq<State>, es: seq<Event>, i: nat, j: nat, caller: nat)
    requires Trace(ss, es) && i < |ss| && j < |ss|
    requires PhaseOf(ss[i], caller).Reported? && PhaseOf(ss[i], caller).current.status == Cancelled
    ensures ss[j].runs == []
  {
    hide Next, Enabled;
    TraceInv(ss, es, i);
    assert PhaseOk(ss[i], PhaseOf(ss[i], caller));
    NothingRunsAfterAWaitersClaim(ss, es, i, j);
  }

  /** Every execution of a run is one of the stored task, by the one executor the arbiter names. */
  lemma OnlyTheWinnerRuns(ss: seq<State>, es: seq<Event>, i: nat, k: nat)
    requires Trace(ss, es) && i < |ss| && k < |ss[i].runs|
    ensures ss[i].arbiter == ByExecutor(ss[i].runs[k].executor)
    ensures ss[i].task.Some? && ss[i].runs[k].identity == ss[i].task.value.identity
  {
    TraceInv(ss, es, i);
    assert ss[i].runs[k] in ss[i].runs;
  }

  /** Once any caller has taken the arbiter key, the task has not been run and never will be. */
  lemma NothingRunsAfterAWaitersClaim(ss: seq<State>, es: seq<Event>, i: nat, j: nat)
    requires Trace(ss, es) && i < |ss| && j < |ss| && ss[i].arbiter.ByWaiter?
    ensures ss[j].runs == []
  {
    hide Next, Enabled, PhaseOk, Inv;
    if i <= j {
      TraceOnward(ss, es, i, j);
      TraceInv(ss, es, j);
      RunsNameAWinner(ss[j]);
    } else {
      TraceOnward(ss, es, j, i);
      TraceInv(ss, es, i);
      RunsNameAWinner(ss[i]);
    }
  }

  lemma RunsNameAWinner(s: State)
    requires Inv(s)
    ensures s.runs != [] ==> s.arbiter.ByExecutor?
  {
    if s.runs != [] { assert s.runs[0] in s.runs; }
  }

  /** A hypothesis on executors: none runs the task a second time. */
  ghost predicate NobodyRunsTwice(es: seq<Event>) {
    forall i, j :: 0 <= i < j < |es| && es[i].Run? && es[j].Run? ==> es[i].executor != es[j].executor
  }

  lemma SameExecutorTwice(es: seq<Event>, i: nat, j: nat)
    requires i < |es| && j < |es| && i != j && es[i].Run? && es[i] == es[j]
    ensures !NobodyRunsTwice(es)
  {
    var a, b := if i < j then i else j, if i < j then j else i;
    assert a < b && es[a].Run? && es[b].Run? && es[a].executor == es[b].executor;
  }

  /** The step at which an execution was recorded. */
  lemma RunsGrow(s: State, e: Event)
    requires Enabled(s, e)
    ensures
      var t := Next(s, e);
      if e.Run? then |t.runs| == |s.runs| + 1 && t.runs[..|s.runs|] == s.runs && t.runs[|s.runs|].executor == e.executor
      else t.runs == s.runs
  {
  }

  lemma {:induction false} RunHasItsStep(ss: seq<State>, es: seq<Event>, i: nat, k: nat) returns (at: nat)
    requires Trace(ss, es) && i < |ss| && k < |ss[i].runs|
    ensures at < i && es[at] == Run(ss[i].runs[k].executor) && |ss[at].runs| == k
  {
    hide Enabled, Next, Inv;
    RunsGrow(ss[i - 1], es[i - 1]);
    if es[i - 1].Run? && k == |ss[i].runs| - 1 {
      at := i - 1;
    } else {
      at := RunHasItsStep(ss, es, i - 1, k);
    }
  }

  /** If no executor runs the task twice, the task is run at most once, however many executors there are. */
  lemma OneRunIfNobodyRunsTwice(ss: seq<State>, es: seq<Event>, i: nat)
    requires Trace(ss, es) && i < |ss| && NobodyRunsTwice(es)
    ensures |ss[i].runs| <= 1
  {
    hide Next, Enabled;
    if |ss[i].runs| > 1 {
      var first := RunHasItsStep(ss, es, i, 0);
      var second := RunHasItsStep(ss, es, i, 1);
      OnlyTheWinnerRuns(ss, es, i, 0);
      OnlyTheWinnerRuns(ss, es, i, 1);
      SameExecutorTwice(es, first, second);
    }
  }

  /** A hypothesis on executors: `finished` is written only after an execution. */
  ghost predicate FinishesAfterRunning(ss: seq<State>, es: seq<Event>) {
    |ss| == |es| + 1 && forall i :: 0 <= i < |es| && es[i].Write? && es[i].status == Finished ==> ss[i].runs != []
  }

  predicate ShowsFinished(phase: Phase) {
    match phase
    case Out => false
    case Reading(_) => false
    case Conflict(_) => false
    case _ => phase.current.status == Finished
  }

  /** Wherever `finished` can be seen, the task has been run. */
  ghost predicate FinishedMeansRun(s: State) {
    && (s.task.Some? && s.task.value.status == Finished ==> s.runs != [])
    && (forall c :: c in s.callers && ShowsFinished(s.callers[c]) ==> s.runs != [])
  }

  lemma StepKeepsFinished(s: State, e: Event)
    requires FinishedMeansRun(s) && Enabled(s, e) && (e.Write? && e.status == Finished ==> s.runs != [])
    ensures FinishedMeansRun(Next(s, e))
  {
  }

  /** If executors write `finished` only after running, then a task that is stored or reported as finished has been run. */
  lemma {:induction false} FinishedIsRun(ss: seq<State>, es: seq<Event>, i: nat)
    requires Trace(ss, es) && i < |ss| && FinishesAfterRunning(ss, es)
    ensures FinishedMeansRun(ss[i])
  {
    hide Next, Enabled;
    if i == 0 {
      assert FinishedMeansRun(START);
    } else {
      FinishedIsRun(ss, es, i - 1);
      assert ss[i - 1 + 1] == Next(ss[i - 1], es[i - 1]);
      StepKeepsFinished(ss[i - 1], es[i - 1]);
    }
  }

  /** The caller asked for this identity: it has been refused, has not been answered, or works on such a task. */
  predicate AskedFor(phase: Phase, identity: Identity) {
    match phase
    case Out => false
    case Conflict(asked) => asked == identity
    case Reading(asked) => asked == identity
    case _ => phase.current.identity == identity
  }

  lemma StepKeepsAsked(s: State, e: Event, caller: nat, identity: Identity)
    requires Inv(s) && Enabled(s, e) && AskedFor(PhaseOf(s, caller), identity)
    ensures AskedFor(PhaseOf(Next(s, e), caller), identity)
  {
    assert PhaseOk(s, PhaseOf(s, caller));
    hide Inv, StatusOk, MayAct, ExecutorOf, Know;
  }

  /** A stored task is never reused for another identity: whoever asked for an identity has been refused, and then the
      stored identity is another one, or works on a task of that identity, which is the stored one. */
  lemma {:induction false} NeverReusedForAnother(ss: seq<State>, es: seq<Event>, i: nat, j: nat, caller: nat, identity: Identity)
    requires Trace(ss, es) && i < |es| && i < j < |ss| && es[i] == Create(caller, identity)
    ensures AskedFor(PhaseOf(ss[j], caller), identity)
    ensures ss[j].task.Some?
    ensures PhaseOf(ss[j], caller).Conflict? ==> ss[j].task.value.identity != identity
    ensures !PhaseOf(ss[j], caller).Conflict? && !PhaseOf(ss[j], caller).Reading? ==> ss[j].task.value.identity == identity
    decreases j
  {
    hide *;
    StepAt(ss, es, i);
    StepAt(ss, es, j - 1);
    TraceInv(ss, es, j - 1);
    TraceInv(ss, es, j);
    if j == i + 1 {
      CreateAsks(ss[i], caller, identity);
    } else {
      NeverReusedForAnother(ss, es, i, j - 1, caller, identity);
      StepKeepsAsked(ss[j - 1], es[j - 1], caller, identity);
    }
    AskedIsOwned(ss[j], caller, identity);
  }

  lemma CreateAsks(s: State, caller: nat, identity: Identity)
    requires Enabled(s, Create(caller, identity))
    ensures AskedFor(PhaseOf(Next(s, Create(caller, identity)), caller), identity)
  {
  }

  lemma StepAt(ss: seq<State>, es: seq<Event>, k: nat)
    requires Trace(ss, es) && k < |es|
    ensures |ss| == |es| + 1 && Enabled(ss[k], es[k]) && ss[k + 1] == Next(ss[k], es[k])
  {
  }

  lemma AskedIsOwned(s: State, caller: nat, identity: Identity)
    requires Inv(s) && AskedFor(PhaseOf(s, caller), identity)
    ensures s.task.Some?
    ensures PhaseOf(s, caller).Conflict? ==> s.task.value.identity != identity
    ensures !PhaseOf(s, caller).Conflict? && !PhaseOf(s, caller).Reading? ==> s.task.value.identity == identity
  {
    assert PhaseOk(s, PhaseOf(s, caller));
  }

  /** Two callers that were both let in asked for the same identity. */
  lemma LetInTogether(ss: seq<State>, es: seq<Event>, j: nat, a: nat, b: nat)
    requires Trace(ss, es) && j < |ss|
    requires PhaseOf(ss[j], a).Reported? && PhaseOf(ss[j], b).Reported?
    ensures PhaseOf(ss[j], a).current.identity == PhaseOf(ss[j], b).current.identity
  {
    TraceInv(ss, es, j);
    assert PhaseOk(ss[j], PhaseOf(ss[j], a)) && PhaseOk(ss[j], PhaseOf(ss[j], b));
  }

  /** At the deadline a caller cancels exactly a pending task whose arbiter key is free. */
  lemma CancelsIff(s: State, caller: nat)
    requires Inv(s) && PhaseOf(s, caller).GivingUp?
    ensures
      var t := Next(s, TryCancel(caller));
      && (PhaseOf(t, caller).Cancelling? <==> s.arbiter.Free? && PhaseOf(s, caller).current.status == Pending)
      && (!PhaseOf(t, caller).Cancelling? ==> PhaseOf(t, caller).Reported? && PhaseOf(t, caller).current.status == Uncertain)
  {
  }

  lemma ReportedStays(s: State, e: Event, caller: nat)
    requires Enabled(s, e) && PhaseOf(s, caller).Reported?
    ensures PhaseOf(Next(s, e), caller) == PhaseOf(s, caller)
  {
  }

  lemma {:induction false} ReportedForGood(ss: seq<State>, es: seq<Event>, i: nat, j: nat, caller: nat)
    requires Trace(ss, es) && i <= j < |ss| && PhaseOf(ss[i], caller).Reported?
    ensures PhaseOf(ss[j], caller) == PhaseOf(ss[i], caller)
    decreases j
  {
    hide Next, Enabled, PhaseOf;
    if i < j {
      ReportedForGood(ss, es, i, j - 1, caller);
      assert ss[j - 1 + 1] == Next(ss[j - 1], es[j - 1]);
      ReportedStays(ss[j - 1], es[j - 1], caller);
    }
  }

  /** A caller whose cancellation comes after another caller's is told `uncertain` for good, although the task has not
      been run at any point of the run and never will be. */
  lemma LoserIsToldUncertain(ss: seq<State>, es: seq<Event>, i: nat, j: nat, caller: nat)
    requires Trace(ss, es) && i < |es| && i < j < |ss| && es[i] == TryCancel(caller) && ss[i].arbiter.ByWaiter?
    ensures PhaseOf(ss[j], caller).Reported? && PhaseOf(ss[j], caller).current.status == Uncertain
    ensures ss[i].runs == [] && ss[j].runs == []
  {
    TraceInv(ss, es, i);
    assert ss[i + 1] == Next(ss[i], es[i]);
    CancelsIff(ss[i], caller);
    hide Next, Enabled, PhaseOf;
    ReportedForGood(ss, es, i + 1, j, caller);
    NothingRunsAfterAWaitersClaim(ss, es, i, i);
    NothingRunsAfterAWaitersClaim(ss, es, i, j);
  }
}
