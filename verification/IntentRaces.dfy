/** What operator writes and claims that come late can still do to an intent, over every run. */
module IntentRaces {
  import opened Common
  import opened IntentProtocol

  // ---- Every reached state ----

  lemma {:induction false} SteadyAlong(ss: seq<State>, es: seq<Event>, k: nat)
    requires Trace(ss, es) && Initial(ss[0]) && k <= |es|
    ensures Steady(ss[k])
  {
    if k > 0 {
      hide Next, Enabled, Steady;
      SteadyAlong(ss, es, k - 1);
      assert Enabled(ss[k - 1], es[k - 1]) && ss[k - 1 + 1] == Next(ss[k - 1], es[k - 1]);
      StepKeepsSteady(ss[k - 1], es[k - 1]);
    }
  }

  // ---- Whether an intent can still be executed ----

  /** Some run from here, timely or not, in which some worker enters the intent. */
  ghost predicate CanStillEnter(s: State, id: Id) {
    exists ss, es, n :: WayIn(s, id, ss, es, n)
  }

  ghost predicate WayIn(s: State, id: Id, ss: seq<State>, es: seq<Event>, n: nat) {
    Trace(ss, es) && ss[0] == s && n < |es| && Enters(ss[n], es[n], id)
  }

  /** A worker has read the task as executable and has not written yet, whether it still holds the lock or not. */
  predicate LoadedOn(s: State, w: Actor, id: Id) {
    w in s.workers && s.workers[w].Loaded? && s.workers[w].id == id
  }

  /** An operator is about to store the task in an open status. */
  predicate Reopens(s: State, o: Actor, id: Id) {
    o in s.drafts && s.drafts[o].id == id && CanCancel(Written(s.drafts[o]).status)
  }

  ghost predicate SomeLoaded(s: State, id: Id) {
    exists w :: LoadedOn(s, w, id)
  }

  ghost predicate SomeReopens(s: State, id: Id) {
    exists o :: Reopens(s, o, id)
  }

  ghost predicate Quiet(s: State, id: Id) {
    Shut(s, id) && !SomeLoaded(s, id) && !SomeReopens(s, id)
  }

  lemma NobodyLoads(s: State, e: Event, id: Id)
    requires Shut(s, id) && !SomeLoaded(s, id) && Enabled(s, e)
    ensures !SomeLoaded(Next(s, e), id)
  {
    hide Outcome, Applies, Effect, InitialStatus;
    forall w ensures !LoadedOn(Next(s, e), w, id) {
      assert !LoadedOn(s, w, id);
    }
  }

  lemma NobodyReopens(s: State, e: Event, id: Id)
    requires Shut(s, id) && !SomeReopens(s, id) && Enabled(s, e)
    ensures !SomeReopens(Next(s, e), id)
  {
    hide Outcome, Executable, InitialStatus;
    forall o ensures !Reopens(Next(s, e), o, id) {
      assert !Reopens(s, o, id);
    }
  }

  lemma StaysShut(s: State, e: Event, id: Id)
    requires ReportsOutcomes(s) && Shut(s, id) && !SomeReopens(s, id) && Enabled(s, e)
    ensures Shut(Next(s, e), id)
  {
    if e.Write? {
      assert !Reopens(s, e.o, id);
      hide Effect;
    } else {
      OtherStepOnShut(s, e, id);
    }
  }

  lemma NobodyEnters(s: State, e: Event, id: Id)
    requires Enabled(s, e) && !SomeLoaded(s, id)
    ensures !Enters(s, e, id)
  {
    if e.Enter? { assert !LoadedOn(s, e.w, id); }
  }

  lemma QuietStep(s: State, e: Event, id: Id)
    requires ReportsOutcomes(s) && Quiet(s, id) && Enabled(s, e)
    ensures ReportsOutcomes(Next(s, e)) && Quiet(Next(s, e), id) && !Enters(s, e, id)
  {
    NobodyEnters(s, e, id);
    hide ReportsOutcomes, Shut, SomeLoaded, SomeReopens, Enters, Next;
    NobodyLoads(s, e, id);
    NobodyReopens(s, e, id);
    StaysShut(s, e, id);
    StepKeepsReports(s, e);
  }

  lemma {:induction false} QuietNeverEnters(ss: seq<State>, es: seq<Event>, id: Id, n: nat)
    requires Trace(ss, es) && ReportsOutcomes(ss[0]) && Quiet(ss[0], id) && n <= |es|
    ensures ReportsOutcomes(ss[n]) && Quiet(ss[n], id)
    ensures n < |es| ==> !Enters(ss[n], es[n], id)
  {
    hide ReportsOutcomes, Quiet, Enters, Next, Enabled;
    if n > 0 {
      QuietNeverEnters(ss, es, id, n - 1);
      assert Enabled(ss[n - 1], es[n - 1]) && ss[n - 1 + 1] == Next(ss[n - 1], es[n - 1]);
      QuietStep(ss[n - 1], es[n - 1], id);
    }
    if n < |es| { QuietStep(ss[n], es[n], id); }
  }

  // ---- Ways to an execution ----

  lemma TimelyWayIsAWay(s: State, id: Id)
    requires CanEnterTimely(s, id)
    ensures CanStillEnter(s, id)
  {
    hide Next, Enabled, Timely, Enters;
    var ss, es, n: nat :| TimelyWayIn(s, id, ss, es, n);
    assert WayIn(s, id, ss, es, n);
  }

  lemma LoadedCanEnter(s: State, w: Actor, id: Id)
    requires LoadedOn(s, w, id)
    ensures CanStillEnter(s, id)
  {
    hide Next, Executable;
    assert WayIn(s, id, [s, Next(s, Enter(w))], [Enter(w)], 0);
  }

  lemma StepThenWay(s: State, e: Event, id: Id)
    requires Enabled(s, e) && CanStillEnter(Next(s, e), id)
    ensures CanStillEnter(s, id)
  {
    hide Next, Enabled, WayIn;
    var ss, es, n: nat :| WayIn(Next(s, e), id, ss, es, n);
    WayFrom(s, e, id, ss, es, n);
  }

  lemma WayFrom(s: State, e: Event, id: Id, ss: seq<State>, es: seq<Event>, n: nat)
    requires Enabled(s, e) && WayIn(Next(s, e), id, ss, es, n)
    ensures WayIn(s, id, [s] + ss, [e] + es, n + 1)
  {
    hide Next, Enabled, Enters;
    var ss', es' := [s] + ss, [e] + es;
    forall i | 0 <= i < |es'| ensures Enabled(ss'[i], es'[i]) && ss'[i + 1] == Next(ss'[i], es'[i]) {
      if i > 0 { assert ss'[i] == ss[i - 1] && es'[i] == es[i - 1] && ss'[i - 1 + 1 + 1] == ss[i - 1 + 1]; }
    }
    assert ss'[n + 1] == ss[n] && es'[n + 1] == es[n];
  }

  lemma OpenIsAWay(s: State, id: Id)
    requires TasksSound(s) && !s.fenced && id in s.tasks && CanCancel(s.tasks[id].status)
    ensures CanStillEnter(s, id)
  {
    assert TaskSound(s.tasks[id], s.clock);
    hide CanStillEnter, CanEnterTimely, TaskSound, TasksSound;
    OpenCanEnter(s, id);
    TimelyWayIsAWay(s, id);
  }

  lemma ReopeningIsAWay(s: State, o: Actor, id: Id)
    requires Steady(s) && !s.fenced && Reopens(s, o, id)
    ensures CanStillEnter(s, id)
  {
    var t := Next(s, Write(o));
    assert !t.fenced && id in t.tasks && CanCancel(t.tasks[id].status);
    hide CanStillEnter, Next, TasksSound, TokensUnique, ReportsOutcomes;
    StepKeepsSteady(s, Write(o));
    OpenIsAWay(t, id);
    StepThenWay(s, Write(o), id);
  }

  /** Unless the fence is up, some run, timely or not, can still execute a stored intent exactly when its task is open, some
      worker stands between reading the task and its executing write, or some operator is about to write an open status. */
  lemma CanStillEnterIff(s: State, id: Id)
    requires Steady(s) && id in s.tasks && !s.fenced
    ensures CanStillEnter(s, id) <==> CanCancel(s.tasks[id].status) || SomeLoaded(s, id) || SomeReopens(s, id)
  {
    hide CanStillEnter, TokensUnique, TasksSound, ReportsOutcomes, LoadedOn, Reopens, CanCancel;
    if CanCancel(s.tasks[id].status) {
      OpenIsAWay(s, id);
    } else if SomeLoaded(s, id) {
      var w :| LoadedOn(s, w, id);
      LoadedCanEnter(s, w, id);
    } else if SomeReopens(s, id) {
      var o :| Reopens(s, o, id);
      ReopeningIsAWay(s, o, id);
    } else {
      QuietHasNoWay(s, id);
    }
  }

  lemma QuietHasNoWay(s: State, id: Id)
    requires ReportsOutcomes(s) && Quiet(s, id)
    ensures !CanStillEnter(s, id)
  {
    hide ReportsOutcomes, Quiet, Next, Enabled, Enters;
    if CanStillEnter(s, id) {
      var ss, es, n: nat :| WayIn(s, id, ss, es, n);
      QuietNeverEnters(ss, es, id, n);
    }
  }

  /** Cancelling or expiring an intent is final, over every run that can follow, exactly when at that moment no worker stands
      between reading the task and its executing write, with or without the lock, and no operator is about to write an open
      status over it. */
  lemma CancelIsFinalIff(ss: seq<State>, es: seq<Event>, i: nat, id: Id)
    requires Trace(ss, es) && Initial(ss[0]) && i <= |es| && Dead(ss[i], id) && !ss[i].fenced
    ensures !CanStillEnter(ss[i], id) <==> !SomeLoaded(ss[i], id) && !SomeReopens(ss[i], id)
  {
    SteadyAlong(ss, es, i);
    hide CanStillEnter, SomeLoaded, SomeReopens, Steady;
    CanStillEnterIff(ss[i], id);
  }

  /** After an operator's write, stale or not, the intent can be executed (again) exactly when the write stores an open
      status, some worker has loaded the task, or another operator is about to write an open status. */
  lemma ExecutionAfterWriteIff(s: State, o: Actor, id: Id)
    requires Steady(s) && !s.fenced && Enabled(s, Write(o)) && s.drafts[o].id == id
    ensures CanStillEnter(Next(s, Write(o)), id)
       <==> CanCancel(Written(s.drafts[o]).status) || SomeLoaded(s, id) || exists p :: p != o && Reopens(s, p, id)
  {
    var t := Next(s, Write(o));
    assert id in t.tasks && t.tasks[id] == Written(s.drafts[o]);
    assert forall w :: LoadedOn(t, w, id) <==> LoadedOn(s, w, id);
    assert forall p :: Reopens(t, p, id) <==> p != o && Reopens(s, p, id);
    hide Steady, Next, CanStillEnter, LoadedOn, Reopens, Effect;
    StepKeepsSteady(s, Write(o));
    CanStillEnterIff(t, id);
  }

  /** An executing write, with or without the lock, is or leads to a second execution exactly when the intent was entered
      before, another worker has loaded it, or an operator is about to write an open status. */
  lemma SecondExecutionAfterEnterIff(s: State, w: Actor)
    requires Steady(s) && !s.fenced && Enabled(s, Enter(w))
    ensures
      var id := s.Worker(w).id;
      var t := Next(s, Enter(w));
      t.entered[id] > 1 || CanStillEnter(t, id)
      <==> id in s.entered || (exists v :: v != w && LoadedOn(s, v, id)) || SomeReopens(s, id)
  {
    var id := s.Worker(w).id;
    var t := Next(s, Enter(w));
    EnterIs(s, w);
    assert t.drafts == s.drafts && t.fenced == s.fenced;
    hide Next, Enabled, Steady, CanStillEnter, Effect;
    assert id in t.tasks && !CanCancel(t.tasks[id].status) && (t.entered[id] > 1 <==> id in s.entered);
    assert forall v :: LoadedOn(t, v, id) <==> v != w && LoadedOn(s, v, id);
    assert forall o :: Reopens(t, o, id) <==> Reopens(s, o, id);
    hide LoadedOn, Reopens;
    StepKeepsSteady(s, Enter(w));
    CanStillEnterIff(t, id);
  }

  // ---- Whether a result stays ----

  /** Nobody executes the intent any more. */
  ghost predicate Closed(s: State, id: Id) {
    id in s.entered && id in s.tasks && forall w :: w in s.workers && Executes(s.workers[w]) ==> s.workers[w].id != id
  }

  /** The step is an operator's write to the task. */
  predicate WritesTo(s: State, e: Event, id: Id) {
    e.Write? && e.o in s.drafts && s.drafts[e.o].id == id
  }

  lemma ClosedStep(s: State, e: Event, id: Id)
    requires Inv(s) && Closed(s, id) && Enabled(s, e) && Safe(s, e)
    ensures Closed(Next(s, e), id)
    ensures id in s.tasks && id in Next(s, e).tasks
    ensures Next(s, e).tasks[id].status == if WritesTo(s, e, id) then Written(s.drafts[e.o]).status else s.tasks[id].status
  {
    if e.Enter? {
      EnterKeepsInv(s, e.w);
      EnterIs(s, e.w);
      hide Inv, Enabled, Next;
    } else {
      OtherStepOnClosed(s, e, id);
    }
  }

  lemma OtherStepOnClosed(s: State, e: Event, id: Id)
    requires Closed(s, id) && Enabled(s, e) && !e.Enter?
    ensures Closed(Next(s, e), id)
    ensures id in s.tasks && id in Next(s, e).tasks
    ensures Next(s, e).tasks[id].status == if WritesTo(s, e, id) then Written(s.drafts[e.o]).status else s.tasks[id].status
  {
    hide Executable, InitialStatus, Applies, Outcome, Effect;
  }

  lemma FinishCloses(s: State, w: Actor)
    requires Inv(s) && Enabled(s, Finish(w))
    ensures
      var (p, t) := (s.Worker(w), Next(s, Finish(w)));
      p.Reporting? && Closed(t, p.id) && p.id in t.tasks && t.tasks[p.id].status == p.outcome
  {
    hide TokensUnique, ClaimsSound, TasksSound;
  }

  /** The status shows the outcome at every point from `i` up to `j`. */
  ghost predicate Shows(ss: seq<State>, i: nat, j: nat, id: Id, outcome: Status)
    requires j < |ss|
  {
    forall k :: i <= k <= j ==> id in ss[k].tasks && ss[k].tasks[id].status == outcome
  }

  /** The step is an operator's write that stores another status in the task. */
  predicate Overwrites(s: State, e: Event, id: Id, outcome: Status) {
    WritesTo(s, e, id) && Written(s.drafts[e.o]).status != outcome
  }

  ghost predicate NoneOverwrites(ss: seq<State>, es: seq<Event>, i: nat, j: nat, id: Id, outcome: Status)
    requires j <= |es| < |ss|
  {
    forall k :: i <= k < j ==> !Overwrites(ss[k], es[k], id, outcome)
  }

  lemma SafeStepAt(ss: seq<State>, es: seq<Event>, k: nat)
    requires SafeTrace(ss, es) && k < |es|
    ensures |ss| == |es| + 1 && Enabled(ss[k], es[k]) && Safe(ss[k], es[k]) && ss[k + 1] == Next(ss[k], es[k])
  {
    assert Safe(ss[k], es[k]);
  }

  lemma SafeLength(ss: seq<State>, es: seq<Event>)
    requires SafeTrace(ss, es)
    ensures |ss| == |es| + 1
  {
  }

  lemma ShowsAtOnce(ss: seq<State>, es: seq<Event>, i: nat, id: Id, outcome: Status)
    requires i <= |es| < |ss| && id in ss[i].tasks && ss[i].tasks[id].status == outcome
    ensures Shows(ss, i, i, id, outcome) && NoneOverwrites(ss, es, i, i, id, outcome)
  {
  }

  lemma {:induction false} ShowsAlong(ss: seq<State>, es: seq<Event>, i: nat, j: nat, id: Id, outcome: Status)
    requires SafeTrace(ss, es) && Inv(ss[0]) && i <= j <= |es| && Closed(ss[i], id)
    requires id in ss[i].tasks && ss[i].tasks[id].status == outcome
    ensures Closed(ss[j], id) && |ss| == |es| + 1
    ensures Shows(ss, i, j, id, outcome) <==> NoneOverwrites(ss, es, i, j, id, outcome)
    decreases j
  {
    hide *;
    SafeLength(ss, es);
    if i == j {
      ShowsAtOnce(ss, es, i, id, outcome);
    } else {
      ShowsAlong(ss, es, i, j - 1, id, outcome);
      SafeInvAlong(ss, es, j - 1);
      SafeStepAt(ss, es, j - 1);
      ClosedStep(ss[j - 1], es[j - 1], id);
      WhenOverwritten(ss[j - 1], es[j - 1], id, outcome);
      OneMore(ss, es, i, j, id, outcome);
    }
  }

  lemma WhenOverwritten(s: State, e: Event, id: Id, outcome: Status)
    requires Inv(s) && Closed(s, id) && Enabled(s, e) && Safe(s, e)
    ensures id in s.tasks && id in Next(s, e).tasks
    ensures s.tasks[id].status == outcome ==> (Next(s, e).tasks[id].status == outcome <==> !Overwrites(s, e, id, outcome))
  {
    hide Inv, Closed, Enabled, Next, Safe, Effect;
    ClosedStep(s, e, id);
  }

  lemma OneMore(ss: seq<State>, es: seq<Event>, i: nat, j: nat, id: Id, outcome: Status)
    requires i < j <= |es| < |ss| && (Shows(ss, i, j - 1, id, outcome) <==> NoneOverwrites(ss, es, i, j - 1, id, outcome))
    requires id in ss[j - 1].tasks && id in ss[j].tasks
    requires ss[j - 1].tasks[id].status == outcome ==>
      (ss[j].tasks[id].status == outcome <==> !Overwrites(ss[j - 1], es[j - 1], id, outcome))
    ensures Shows(ss, i, j, id, outcome) <==> NoneOverwrites(ss, es, i, j, id, outcome)
  {
    hide Overwrites;
    assert Shows(ss, i, j, id, outcome) <==> Shows(ss, i, j - 1, id, outcome) && ss[j].tasks[id].status == outcome;
    assert NoneOverwrites(ss, es, i, j, id, outcome) <==>
      NoneOverwrites(ss, es, i, j - 1, id, outcome) && !Overwrites(ss[j - 1], es[j - 1], id, outcome);
  }

  /** The outcome a worker reports stays the task's status up to any later point of a safe run exactly when no operator's
      write in between stores another status over it. */
  lemma ResultKeptIff(ss: seq<State>, es: seq<Event>, i: nat, j: nat)
    requires SafeTrace(ss, es) && Initial(ss[0]) && i < j <= |es| && es[i].Finish?
    ensures
      var p := ss[i].Worker(es[i].w);
      && p.Reporting?
      && (Shows(ss, i + 1, j, p.id, p.outcome) <==> NoneOverwrites(ss, es, i + 1, j, p.id, p.outcome))
  {
    InitialHasInv(ss[0]);
    SafeInvAlong(ss, es, i);
    assert Enabled(ss[i], es[i]) && ss[i + 1] == Next(ss[i], es[i]);
    FinishCloses(ss[i], es[i].w);
    hide Inv, Closed, Next, Shows, NoneOverwrites, Safe;
    var p := ss[i].Worker(es[i].w);
    ShowsAlong(ss, es, i + 1, j, p.id, p.outcome);
  }
}
