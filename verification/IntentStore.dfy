/** The store's own functions over Redis fields, each proved to be steps of the interleaved protocol,
    and runs showing that each of the protocol's timing assumptions is needed. */
module IntentStore {
  import opened Common
  import opened IntentProtocol

  /** The keys of the store, the callers' local variables, and the clock. Each method is one Redis command, or a
      sequence of commands run without interruption; its contract names the protocol steps it takes. */
  class Store {
    const fenced: bool
    var tasks: map<Id, Task>
    var locks: map<Id, Token>
    var nextToken: Token
    var clock: int
    var workers: map<Actor, Phase>
    var drafts: map<Actor, Draft>
    var entered: multiset<Id>

    ghost function View(): State
      reads this
    {
      State(fenced, tasks, locks, nextToken, clock, workers, drafts, entered)
    }

    constructor (fenced: bool)
      ensures View() == State(fenced, map[], map[], 0, 0, map[], map[], multiset{})
      ensures Initial(View())
    {
      this.fenced := fenced;
      tasks, locks, nextToken, clock, workers, drafts, entered := map[], map[], 0, 0, map[], map[], multiset{};
    }

    method CreateIntent(id: Id, fromTelegram: bool, dueAt: Option<int>, now: int)
      requires Enabled(View(), Create(id, fromTelegram, dueAt, now))
      modifies this`tasks
      ensures View() == Next(old(View()), Create(id, fromTelegram, dueAt, now))
    {
      tasks := tasks[id := Task(InitialStatus(fromTelegram, dueAt, now), dueAt, 0)];
    }

    /** An operator action whose read and write are not interrupted: it changes the task exactly when the
        action applies to its status. */
    method Act(o: Actor, action: Action, id: Id, now: int) returns (done: bool)
      requires now <= clock && o !in drafts
      modifies this
      ensures done <==> id in old(tasks) && Applies(action, old(tasks[id]), now)
      ensures !done ==> View() == old(View())
      ensures done ==> Enabled(old(View()), Read(o, action, id, now))
      ensures done ==>
        var read := Next(old(View()), Read(o, action, id, now));
        Enabled(read, Write(o)) && Timely(read, Write(o)) && View() == Next(read, Write(o))
    {
      done := id in tasks && Applies(action, tasks[id], now);
      if done {
        var task := tasks[id];
        drafts := drafts[o := Draft(action, id, task, now)];
        tasks := tasks[id := Effect(action, task, now)];
        drafts := drafts - {o};
      }
    }

    /** SET lock NX. */
    method AcquireLock(w: Actor, id: Id, now: int) returns (acquired: bool)
      requires Enabled(View(), TryLock(w, id, now))
      modifies this
      ensures View() == Next(old(View()), TryLock(w, id, now))
      ensures acquired <==> id !in old(locks)
    {
      acquired := id !in locks;
      if acquired {
        locks := locks[id := nextToken];
        workers := workers[w := Locked(id, nextToken, now)];
        nextToken := nextToken + 1;
      }
    }

    method LoadTask(w: Actor) returns (executable: bool)
      requires Enabled(View(), Load(w))
      modifies this`workers
      ensures View() == Next(old(View()), Load(w))
      ensures executable <==> workers[w].Loaded?
    {
      var p := workers[w];
      executable := p.id in tasks && Executable(tasks[p.id], p.now);
      workers := workers[w := if executable then Loaded(p.id, p.token, p.now, tasks[p.id]) else Refused(p.id, p.token)];
    }

    method WriteExecuting(w: Actor)
      requires Enabled(View(), Enter(w))
      modifies this
      ensures View() == Next(old(View()), Enter(w))
    {
      var p := workers[w];
      var written := p.snapshot.(status := Executing, startedAt := p.now);
      tasks := tasks[p.id := written];
      entered := entered + multiset{p.id};
      workers := workers[w := Running(p.id, p.token, written)];
    }

    /** The first command of finishing; the broker's outcome is known by now. */
    method ReloadTask(w: Actor, outcome: Status)
      requires Enabled(View(), Report(w, outcome))
      modifies this`workers
      ensures View() == Next(old(View()), Report(w, outcome))
    {
      var p := workers[w];
      workers := workers[w := Reporting(p.id, p.token, if p.id in tasks then tasks[p.id] else p.claimed, outcome)];
    }

    method WriteOutcome(w: Actor)
      requires Enabled(View(), Finish(w))
      modifies this
      ensures View() == Next(old(View()), Finish(w))
    {
      var p := workers[w];
      tasks := tasks[p.id := p.snapshot.(status := p.outcome)];
      workers := workers[w := Releasing(p.id, p.token)];
    }

    /** The owned-release script. */
    method ReleaseExecutionLock(w: Actor)
      requires Enabled(View(), Unlock(w))
      modifies this
      ensures View() == Next(old(View()), Unlock(w))
    {
      var p := workers[w];
      if p.id in locks && locks[p.id] == p.token {
        locks := locks - {p.id};
      }
      workers := workers[w := Idle];
    }

    /** Lock, read, and either write `executing` or give the lock back. */
    method ClaimCloudIntentExecution(w: Actor, id: Id, now: int) returns (claimed: bool)
      requires Enabled(View(), TryLock(w, id, now))
      modifies this
      ensures claimed <==> id !in old(locks) && id in old(tasks) && Executable(old(tasks[id]), now)
      ensures drafts == old(drafts) && clock == old(clock)
      ensures !claimed ==>
        tasks == old(tasks) && locks == old(locks) && entered == old(entered) && View().Worker(w).Idle?
      ensures claimed ==>
        && tasks == old(tasks)[id := old(tasks[id]).(status := Executing, startedAt := now)]
        && locks == old(locks)[id := old(nextToken)] && entered == old(entered) + multiset{id}
        && View().Worker(w) == Running(id, old(nextToken), tasks[id])
    {
      claimed := AcquireLock(w, id, now);
      if !claimed {
        return;
      }
      claimed := LoadTask(w);
      if claimed {
        WriteExecuting(w);
      } else {
        ReleaseExecutionLock(w);
        assert locks == old(locks);
      }
    }

    /** Re-read, write the outcome, give the lock back if it is still this worker's. */
    method FinishCloudIntentExecution(w: Actor, outcome: Status)
      requires Enabled(View(), Report(w, outcome))
      modifies this
      ensures
        var id := old(workers[w].id);
        && tasks == old(tasks)[id := (if id in old(tasks) then old(tasks[id]) else old(workers[w].claimed)).(status := outcome)]
        && locks == (if id in old(locks) && old(locks[id]) == old(workers[w].token) then old(locks) - {id} else old(locks))
      ensures drafts == old(drafts) && entered == old(entered) && View().Worker(w).Idle?
    {
      ReloadTask(w, outcome);
      WriteOutcome(w);
      ReleaseExecutionLock(w);
    }

    /** Fence, claim, execute, finish. `outcome` is what the broker execution yields; an exception in it is
        the outcome `Failed`. Uninterrupted, a run leaves the lock keys as it found them. */
    method RunCloudIntentExecution(w: Actor, id: Id, now: int, outcome: Status) returns (ran: bool)
      requires View().Worker(w).Idle? && now <= clock && Outcome(outcome)
      modifies this
      ensures ran <==> !fenced && id !in old(locks) && id in old(tasks) && Executable(old(tasks[id]), now)
      ensures locks == old(locks) && drafts == old(drafts)
      ensures !ran ==> tasks == old(tasks) && entered == old(entered)
      ensures ran ==> tasks == old(tasks)[id := old(tasks[id]).(status := outcome, startedAt := now)]
      ensures ran ==> entered == old(entered) + multiset{id}
    {
      if fenced {
        return false;
      }
      ran := ClaimCloudIntentExecution(w, id, now);
      if ran {
        FinishCloudIntentExecution(w, outcome);
        assert locks == old(locks);
        assert tasks == old(tasks)[id := old(tasks[id]).(status := outcome, startedAt := now)];
      }
    }
  }

  // ---- Why the timing assumptions are there ----

  /** A run from the start that ends in `last`, in which the executing writes hold their lock (if `claims`)
      and the operator writes are fresh (if `operators`). */
  ghost predicate Run(ss: seq<State>, es: seq<Event>, last: State, claims: bool, operators: bool) {
    && Trace(ss, es) && Initial(ss[0]) && ss[|es|] == last
    && forall i :: 0 <= i < |es| && ((es[i].Enter? && claims) || (es[i].Write? && operators)) ==> Timely(ss[i], es[i])
  }

  lemma TimelyRun(ss: seq<State>, es: seq<Event>, last: State)
    requires Run(ss, es, last, true, true)
    ensures TimelyTrace(ss, es)
  {
  }

  lemma Start(claims: bool, operators: bool) returns (ss: seq<State>, es: seq<Event>, s: State)
    ensures s == State(false, map[], map[], 0, 0, map[], map[], multiset{})
    ensures Run(ss, es, s, claims, operators)
  {
    s := State(false, map[], map[], 0, 0, map[], map[], multiset{});
    ss, es := [s], [];
  }

  lemma Then(ss: seq<State>, es: seq<Event>, s: State, e: Event, claims: bool, operators: bool)
    returns (ss': seq<State>, es': seq<Event>, s': State)
    requires Run(ss, es, s, claims, operators) && Enabled(s, e)
    requires (e.Enter? && claims) || (e.Write? && operators) ==> Timely(s, e)
    ensures Run(ss', es', s', claims, operators) && s' == Next(s, e)
    ensures es' == es + [e] && ss' == ss + [s']
  {
    hide Next, Enabled, Timely, Initial;
    s' := Next(s, e);
    ss', es' := ss + [s'], es + [e];
  }

  const WAITING := Task(ApprovalRequired, None, 0)
  const READY := Task(Approved, None, 0)

  /** Intent 1 is created, two operators read it as waiting for approval, and the first one approves it. */
  lemma ApprovedOnce(claims: bool) returns (ss: seq<State>, es: seq<Event>, s: State)
    ensures Run(ss, es, s, claims, false)
    ensures s == State(false, map[1 := READY], map[], 0, 0, map[], map[11 := Draft(Approve, 1, WAITING, 0)], multiset{})
  {
    hide Run;
    ss, es, s := Start(claims, false);
    ss, es, s := Then(ss, es, s, Create(1, false, None, 0), claims, false);
    ss, es, s := Then(ss, es, s, Read(10, Approve, 1, 0), claims, false);
    ss, es, s := Then(ss, es, s, Read(11, Approve, 1, 0), claims, false);
    ss, es, s := Then(ss, es, s, Write(10), claims, false);
    assert s.drafts == map[11 := Draft(Approve, 1, WAITING, 0)];
  }

  /** Worker 1 claims the approved intent 1. */
  lemma ClaimOnce(ss0: seq<State>, es0: seq<Event>, s0: State) returns (ss: seq<State>, es: seq<Event>, s: State)
    requires Run(ss0, es0, s0, true, false)
    requires s0.tasks == map[1 := READY] && s0.locks == map[] && !s0.fenced && s0.clock == 0 && s0.Worker(1).Idle?
    ensures Run(ss, es, s, true, false)
    ensures s.tasks == map[1 := READY.(status := Executing)] && s.locks == map[1 := s0.nextToken]
    ensures s.Worker(1).Running? && s.Worker(1).id == 1 && s.Worker(1).token == s0.nextToken
    ensures s.entered == s0.entered + multiset{1} && s.drafts == s0.drafts && !s.fenced && s.clock == 0
  {
    hide Run;
    ss, es, s := Then(ss0, es0, s0, TryLock(1, 1, 0), true, false);
    ss, es, s := Then(ss, es, s, Load(1), true, false);
    assert s.Worker(1) == Loaded(1, s0.nextToken, 0, READY);
    ss, es, s := Then(ss, es, s, Enter(1), true, false);
  }

  /** Worker 1 reports success and releases its lock. */
  lemma FinishOnce(ss0: seq<State>, es0: seq<Event>, s0: State) returns (ss: seq<State>, es: seq<Event>, s: State)
    requires Run(ss0, es0, s0, true, false)
    requires s0.Worker(1).Running? && s0.Worker(1).id == 1 && 1 in s0.tasks && s0.locks == map[1 := s0.Worker(1).token]
    ensures Run(ss, es, s, true, false)
    ensures s.tasks == s0.tasks[1 := s0.tasks[1].(status := Executed)] && s.locks == map[] && s.Worker(1).Idle?
    ensures s.entered == s0.entered && s.drafts == s0.drafts && s.fenced == s0.fenced && s.clock == s0.clock
  {
    hide Run;
    ss, es, s := Then(ss0, es0, s0, Report(1, Executed), true, false);
    ss, es, s := Then(ss, es, s, Finish(1), true, false);
    ss, es, s := Then(ss, es, s, Unlock(1), true, false);
  }

  /** Writing the second approval, read before the first one took effect, after the intent was executed:
      it is executed again, although every executing write held its lock. */
  lemma StaleApprovalExecutesTwice() returns (ss: seq<State>, es: seq<Event>, s: State)
    ensures Run(ss, es, s, true, false) && s.entered[1] == 2
  {
    hide Run;
    ss, es, s := ApprovedOnce(true);
    ss, es, s := ClaimOnce(ss, es, s);
    ss, es, s := FinishOnce(ss, es, s);
    ss, es, s := Then(ss, es, s, Write(11), true, false);
    assert s.tasks == map[1 := READY];
    ss, es, s := ClaimOnce(ss, es, s);
  }

  /** Intent 1 is approved, and worker 1 has locked and loaded it. */
  lemma ApprovedAndLoaded(claims: bool) returns (ss: seq<State>, es: seq<Event>, s: State)
    ensures Run(ss, es, s, claims, true)
    ensures s == State(false, map[1 := READY], map[1 := 0], 1, 0, map[1 := Loaded(1, 0, 0, READY)], map[], multiset{})
  {
    hide Run;
    ss, es, s := Start(claims, true);
    ss, es, s := Then(ss, es, s, Create(1, false, None, 0), claims, true);
    ss, es, s := Then(ss, es, s, Read(10, Approve, 1, 0), claims, true);
    ss, es, s := Then(ss, es, s, Write(10), claims, true);
    assert s.drafts == map[];
    ss, es, s := Then(ss, es, s, TryLock(1, 1, 0), claims, true);
    ss, es, s := Then(ss, es, s, Load(1), claims, true);
  }

  /** A lock that expires between the read and the executing write lets a second worker in:
      the intent is executed twice, although no operator write was stale. */
  lemma ExpiredLockExecutesTwice() returns (ss: seq<State>, es: seq<Event>, s: State)
    ensures Run(ss, es, s, false, true) && s.entered[1] == 2
  {
    hide Run;
    ss, es, s := ApprovedAndLoaded(false);
    ss, es, s := Then(ss, es, s, LockExpires(1), false, true);
    ss, es, s := Then(ss, es, s, TryLock(2, 1, 0), false, true);
    ss, es, s := Then(ss, es, s, Load(2), false, true);
    ss, es, s := Then(ss, es, s, Enter(2), false, true);
    ss, es, s := Then(ss, es, s, Enter(1), false, true);
  }

  /** "Cancelled intents are never claimed" fails even in a run that meets both assumptions: the cancellation
      succeeds between the worker's read and its write, and the intent is executed all the same. */
  lemma CancelledIntentIsExecuted() returns (ss: seq<State>, es: seq<Event>, n: nat)
    ensures TimelyTrace(ss, es) && Initial(ss[0])
    ensures n < |es| && Dead(ss[n], 1) && Enters(ss[n], es[n], 1)
  {
    var s;
    ss, es, s := ApprovedAndLoaded(true);
    ss, es, s := Then(ss, es, s, Read(10, Cancel, 1, 0), true, true);
    ss, es, s := Then(ss, es, s, Write(10), true, true);
    n := |es|;
    assert Dead(s, 1);
    ss, es, s := Then(ss, es, s, Enter(1), true, true);
    TimelyRun(ss, es, s);
  }

  /** A cancelled intent whose lock key is absent, and that no claim is pending on, is executed all the same: an approval that
      was read before the cancellation is written after it. Every executing write holds its lock. */
  lemma StaleApprovalRevivesCancelled() returns (ss: seq<State>, es: seq<Event>, last: State, n: nat)
    ensures Run(ss, es, last, true, false) && last.entered[1] == 1
    ensures n < |ss| && Dead(ss[n], 1) && ss[n].entered[1] == 0 && 1 !in ss[n].locks && !ClaimPending(ss[n], 1)
  {
    hide Run;
    var s;
    ss, es, s := CancelledWithApprovalRead();
    n := |es|;
    assert ss[n] == s by { RunEndsIn(ss, es, s); }
    assert forall w :: !Pending(s, w, 1);
    var ss0 := ss;
    ss, es, s := Then(ss, es, s, Write(11), true, false);
    assert s.tasks == map[1 := READY];
    assert ss[n] == ss0[n];
    ss, es, last := ClaimKeeping(ss, es, s, n);
  }

  lemma RunEndsIn(ss: seq<State>, es: seq<Event>, last: State)
    requires Run(ss, es, last, true, false)
    ensures |ss| == |es| + 1 && ss[|es|] == last
  {
  }

  lemma CancelledWithApprovalRead() returns (ss: seq<State>, es: seq<Event>, s: State)
    ensures Run(ss, es, s, true, false)
    ensures s == State(false, map[1 := WAITING.(status := Cancelled)], map[], 0, 0, map[], map[11 := Draft(Approve, 1, WAITING, 0)], multiset{})
  {
    hide Run;
    ss, es, s := Start(true, false);
    ss, es, s := Then(ss, es, s, Create(1, false, None, 0), true, false);
    ss, es, s := Then(ss, es, s, Read(11, Approve, 1, 0), true, false);
    ss, es, s := Then(ss, es, s, Read(10, Cancel, 1, 0), true, false);
    ss, es, s := Then(ss, es, s, Write(10), true, false);
    assert s.drafts == map[11 := Draft(Approve, 1, WAITING, 0)];
  }

  /** Worker 1 claims the approved intent 1; what the run has passed stays. */
  lemma ClaimKeeping(ss0: seq<State>, es0: seq<Event>, s0: State, n: nat) returns (ss: seq<State>, es: seq<Event>, s: State)
    requires Run(ss0, es0, s0, true, false) && n < |ss0|
    requires s0.tasks == map[1 := READY] && s0.locks == map[] && !s0.fenced && s0.clock == 0 && s0.Worker(1).Idle?
    ensures Run(ss, es, s, true, false) && s.entered == s0.entered + multiset{1}
    ensures n < |ss| && ss[n] == ss0[n]
  {
    hide Run;
    ss, es, s := Then(ss0, es0, s0, TryLock(1, 1, 0), true, false);
    ss, es, s := Then(ss, es, s, Load(1), true, false);
    assert s.Worker(1) == Loaded(1, s0.nextToken, 0, READY);
    ss, es, s := Then(ss, es, s, Enter(1), true, false);
  }

  /** A run from the start of safe steps. */
  ghost predicate SafeRun(ss: seq<State>, es: seq<Event>, last: State) {
    SafeTrace(ss, es) && Initial(ss[0]) && ss[|es|] == last
  }

  lemma ThenSafely(ss: seq<State>, es: seq<Event>, s: State, e: Event) returns (ss': seq<State>, es': seq<Event>, s': State)
    requires SafeRun(ss, es, s) && Enabled(s, e) && Safe(s, e)
    ensures SafeRun(ss', es', s') && s' == Next(s, e) && es' == es + [e] && ss' == ss + [s'] && |ss| == |es| + 1
  {
    hide Next, Enabled, Safe, Initial;
    s' := Next(s, e);
    ss', es' := ss + [s'], es + [e];
  }

  const CLAIMED_AT_ONE := Task(Executing, None, 1)
  const LATE := 2 + STALE_MS

  /** Worker 1 has executed intent 1 for more than ten minutes, and the tick has read it as stale. */
  lemma ReadAsStale() returns (ss: seq<State>, es: seq<Event>, s: State)
    ensures SafeRun(ss, es, s)
    ensures s.tasks == map[1 := CLAIMED_AT_ONE] && s.drafts == map[10 := Draft(MarkStale, 1, CLAIMED_AT_ONE, LATE)]
    ensures s.Worker(1) == Running(1, 0, CLAIMED_AT_ONE)
  {
    ss, es, s := ExecutingSinceOne();
    hide SafeRun;
    ss, es, s := ThenSafely(ss, es, s, Advance(1 + STALE_MS));
    ss, es, s := ThenSafely(ss, es, s, Read(10, MarkStale, 1, LATE));
  }

  lemma ExecutingSinceOne() returns (ss: seq<State>, es: seq<Event>, s: State)
    ensures SafeRun(ss, es, s)
    ensures s == State(false, map[1 := CLAIMED_AT_ONE], map[1 := 0], 1, 1, map[1 := Running(1, 0, CLAIMED_AT_ONE)], map[], multiset{1})
  {
    hide SafeRun;
    ss, es, s := ReadySafely();
    ss, es, s := ThenSafely(ss, es, s, Advance(1));
    ss, es, s := ThenSafely(ss, es, s, TryLock(1, 1, 1));
    ss, es, s := ThenSafely(ss, es, s, Load(1));
    ss, es, s := ThenSafely(ss, es, s, Enter(1));
  }

  lemma ReadySafely() returns (ss: seq<State>, es: seq<Event>, s: State)
    ensures SafeRun(ss, es, s) && s == State(false, map[1 := READY], map[], 0, 0, map[], map[], multiset{})
  {
    s := State(false, map[], map[], 0, 0, map[], map[], multiset{});
    ss, es := [s], [];
    assert SafeRun(ss, es, s);
    hide SafeRun;
    ss, es, s := ThenSafely(ss, es, s, Create(1, false, None, 0));
    ss, es, s := ThenSafely(ss, es, s, Read(10, Approve, 1, 0));
    ss, es, s := ThenSafely(ss, es, s, Write(10));
    assert s.drafts == map[];
  }

  /** The worker's result is overwritten even in a safe run: the tick reads the task as executing for too long, the worker
      reports `executed`, and the tick stores `uncertain` over it. */
  lemma StaleMarkOverwritesResult() returns (ss: seq<State>, es: seq<Event>, last: State, n: nat)
    ensures SafeRun(ss, es, last)
    ensures n < |es| && es[n] == Finish(1) && n < |ss| && ss[n].Worker(1).Reporting?
    ensures ss[n].Worker(1).id == 1 && ss[n].Worker(1).outcome == Executed
    ensures 1 in last.tasks && last.tasks[1].status == Uncertain
  {
    var s;
    ss, es, s := ReadAsStale();
    hide SafeRun;
    ss, es, s := ThenSafely(ss, es, s, Report(1, Executed));
    n := |es|;
    ss, es, s := ThenSafely(ss, es, s, Finish(1));
    ss, es, last := ThenSafely(ss, es, s, Write(10));
  }
}
