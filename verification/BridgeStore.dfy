/** The bridge's own functions over the Redis keys of one task, each proved to be steps of the protocol. */
module BridgeStore {
  import opened Common
  import opened BridgeProtocol

  /** Each step is possible in turn. */
  ghost predicate Steps(s: State, es: seq<Event>, t: State)
    decreases |es|
  {
    if es == [] then s == t
    else
      var n := |es| - 1;
      exists m :: Steps(s, es[..n], m) && Enabled(m, es[n]) && Next(m, es[n]) == t
  }

  lemma StepsExtend(s: State, es: seq<Event>, m: State, e: Event)
    requires Steps(s, es, m) && Enabled(m, e)
    ensures Steps(s, es + [e], Next(m, e))
  {
    assert (es + [e])[..|es|] == es;
  }

  lemma {:induction false} StepsKeepInv(s: State, es: seq<Event>, t: State)
    requires Inv(s) && Steps(s, es, t)
    ensures Inv(t) && Onward(s, t)
    decreases |es|
  {
    hide Enabled, Next;
    if es != [] {
      var n := |es| - 1;
      var m :| Steps(s, es[..n], m) && Enabled(m, es[n]) && Next(m, es[n]) == t;
      StepsKeepInv(s, es[..n], m);
      StepKeepsInv(m, es[n]);
    }
  }

  /** Whether a step is one of this caller's. */
  predicate StepOf(e: Event, caller: nat) {
    match e
    case Pop => false
    case Take(_) => false
    case Win(_) => false
    case Run(_) => false
    case Write(_, _) => false
    case _ => e.caller == caller
  }

  class Bridge {
    var task: Option<Task>
    var queue: nat
    var arbiter: Claim
    var callers: map<nat, Phase>
    var executors: map<nat, Executor>
    var runs: seq<Execution>

    ghost function View(): State
      reads this
    {
      State(task, queue, arbiter, callers, executors, runs)
    }

    constructor ()
      ensures View() == START && Inv(View())
    {
      task, queue, arbiter, callers, executors, runs := None, 0, Free, map[], map[], [];
    }

    /** Lets other callers and executors take those of the given steps that are possible. */
    method Meanwhile(caller: nat, events: seq<Event>, ghost start: State, ghost before: seq<Event>) returns (ghost steps: seq<Event>)
      requires Inv(View()) && Steps(start, before, View())
      modifies this
      ensures Inv(View()) && Steps(start, steps, View())
      ensures PhaseOf(View(), caller) == PhaseOf(old(View()), caller)
      ensures events == [] ==> View() == old(View())
    {
      hide Inv, Enabled, Next, Steps;
      steps := before;
      for k := 0 to |events|
        invariant Inv(View()) && Steps(start, steps, View())
        invariant PhaseOf(View(), caller) == PhaseOf(old(View()), caller)
        invariant k == 0 ==> View() == old(View())
      {
        var s := State(task, queue, arbiter, callers, executors, runs);
        if Enabled(s, events[k]) && !StepOf(events[k], caller) {
          var t := Next(s, events[k]);
          OthersLeaveAlone(s, events[k], caller);
          StepKeepsInv(s, events[k]);
          StepsExtend(start, steps, s, events[k]);
          steps := steps + [events[k]];
          task, queue, arbiter, callers := t.task, t.queue, t.arbiter, t.callers;
          executors, runs := t.executors, t.runs;
        }
      }
    }

    /** Stores the task if there is none, and otherwise compares the stored identity. */
    method CreateOrRead(caller: nat, identity: Identity) returns (current: Option<Task>)
      requires Inv(View()) && PhaseOf(View(), caller).Out?
      modifies this`task, this`callers
      ensures Inv(View())
      ensures task == if old(task).None? then Some(Task(identity, Pending)) else old(task)
      ensures current == if task.value.identity == identity then task else None
      ensures PhaseOf(View(), caller) == if current.None? then Conflict(identity) else AfterCreate(current.value)
    {
      hide Inv, PhaseOk;
      ghost var s0 := View();
      StepKeepsInv(s0, Create(caller, identity));
      if task.None? {
        task := Some(Task(identity, Pending));
        callers := callers[caller := Looking(task.value)];
        return task;
      }
      StepKeepsInv(Next(s0, Create(caller, identity)), ReadBack(caller));
      current := if task.value.identity != identity then None else task;
      ghost var written := callers[caller := Reading(identity)];
      callers := callers[caller := if current.None? then Conflict(identity) else AfterCreate(current.value)];
      assert callers == written[caller := callers[caller]];
    }

    /** Puts a pending task into the queue once, unless the arbiter key is taken. */
    method QueueOnce(caller: nat)
      requires Inv(View()) && PhaseOf(View(), caller).Looking?
      modifies this`queue, this`callers
      ensures Inv(View()) && PhaseOf(View(), caller) == Waiting(old(PhaseOf(View(), caller).current))
      ensures queue == if arbiter.Free? then 1 else old(queue)
    {
      hide Inv, PhaseOk;
      ghost var s0 := View();
      var current := callers[caller].current;
      StepKeepsInv(s0, LookAtArbiter(caller));
      ghost var s1 := Next(s0, LookAtArbiter(caller));
      if arbiter.Free? {
        queue := 0;
        queue := queue + 1;
        StepKeepsInv(s1, Remove(caller));
        StepKeepsInv(Next(s1, Remove(caller)), Push(caller));
        s1 := Next(Next(s1, Remove(caller)), Push(caller));
      }
      callers := callers[caller := Waiting(current)];
      assert callers == s1.callers;
    }

    /** Uninterrupted, a caller is refused exactly when another identity is stored; otherwise the task is stored, and it
        is queued once if it is pending and nobody has taken the arbiter. */
    method EnqueueTask(caller: nat, identity: Identity) returns (current: Option<Task>)
      requires Inv(View()) && PhaseOf(View(), caller).Out?
      modifies this
      ensures Inv(View()) && arbiter == old(arbiter) && runs == old(runs)
      ensures current.None? <==> old(task).Some? && old(task).value.identity != identity
      ensures current.None? ==> task == old(task) && queue == old(queue)
      ensures current.Some? ==> task == current && PhaseOf(View(), caller) == Waiting(current.value)
      ensures current.Some? ==> current == if old(task).None? then Some(Task(identity, Pending)) else old(task)
      ensures current.Some? ==> queue == if current.value.status == Pending && arbiter.Free? then 1 else old(queue)
    {
      hide Inv;
      current := CreateOrRead(caller, identity);
      if current.Some? && current.value.status == Pending {
        QueueOnce(caller);
      }
    }

    /** Reads the task; the caller is done when its status is final. */
    method GetTask(caller: nat, last: bool) returns (reported: bool)
      requires Inv(View()) && PhaseOf(View(), caller).Waiting?
      modifies this`callers
      ensures var e := if last then LastPoll(caller) else Poll(caller);
        Inv(View()) && View() == Next(old(View()), e)
      ensures var seen := Seen(old(View()), PhaseOf(old(View()), caller).current);
        && (reported <==> Terminal(seen.status))
        && PhaseOf(View(), caller) == if reported then Reported(seen) else if last then GivingUp(seen) else Waiting(seen)
    {
      hide Inv;
      StepKeepsInv(View(), if last then LastPoll(caller) else Poll(caller));
      var current := match task { case None => callers[caller].current case Some(t) => t };
      reported := Terminal(current.status);
      callers := callers[caller := if reported then Reported(current) else if last then GivingUp(current) else Waiting(current)];
    }

    /** Sets the arbiter key if it is absent. */
    method ClaimCancellation(caller: nat) returns (won: bool)
      requires Inv(View()) && PhaseOf(View(), caller).GivingUp?
      modifies this
      ensures Inv(View()) && View() == Next(old(View()), TryCancel(caller))
      ensures won <==> PhaseOf(View(), caller).Cancelling?
      ensures won <==> old(arbiter).Free? && old(PhaseOf(View(), caller).current.status) == Pending
    {
      hide Inv;
      StepKeepsInv(View(), TryCancel(caller));
      var current := callers[caller].current;
      won := arbiter.Free? && current.status == Pending;
      if arbiter.Free? {
        arbiter := ByWaiter;
      }
      callers := callers[caller := if won then Cancelling(current) else Reported(current.(status := Uncertain))];
    }

    method StoreCancelled(caller: nat)
      requires Inv(View()) && PhaseOf(View(), caller).Cancelling?
      modifies this
      ensures Inv(View()) && View() == Next(old(View()), WriteCancelled(caller))
    {
      hide Inv;
      StepKeepsInv(View(), WriteCancelled(caller));
      var next := callers[caller].current.(status := Cancelled);
      task := Some(next);
      callers := callers[caller := Unqueueing(next)];
    }

    method RemoveFromQueue(caller: nat)
      requires Inv(View()) && PhaseOf(View(), caller).Unqueueing?
      modifies this
      ensures Inv(View()) && View() == Next(old(View()), Unqueue(caller))
    {
      hide Inv;
      StepKeepsInv(View(), Unqueue(caller));
      queue := 0;
      callers := callers[caller := Reported(callers[caller].current)];
    }

    /** The end of waiting, when the deadline has passed: `gaps` are the steps of others before each command. */
    method GiveUp(caller: nat, gaps: seq<seq<Event>>, ghost start: State, ghost before: seq<Event>) returns (ghost steps: seq<Event>)
      requires Inv(View()) && PhaseOf(View(), caller).Waiting? && |gaps| == 4 && Steps(start, before, View())
      modifies this
      ensures Inv(View()) && Steps(start, steps, View()) && PhaseOf(View(), caller).Reported?
      ensures gaps == [[], [], [], []] ==>
        && PhaseOf(View(), caller).current == Settled(old(View()), old(PhaseOf(View(), caller).current))
        && (PhaseOf(View(), caller).current.status == Cancelled && !Terminal(old(Seen(View(), PhaseOf(View(), caller).current)).status)
            ==> task == Some(PhaseOf(View(), caller).current) && queue == 0)
    {
      hide Inv, Steps;
      steps := Meanwhile(caller, gaps[0], start, before);
      StepsExtend(start, steps, View(), LastPoll(caller));
      var reported := GetTask(caller, true);
      steps := steps + [LastPoll(caller)];
      if reported {
        return;
      }
      steps := Meanwhile(caller, gaps[1], start, steps);
      StepsExtend(start, steps, View(), TryCancel(caller));
      var won := ClaimCancellation(caller);
      steps := steps + [TryCancel(caller)];
      if !won {
        return;
      }
      steps := Meanwhile(caller, gaps[2], start, steps);
      StepsExtend(start, steps, View(), WriteCancelled(caller));
      StoreCancelled(caller);
      steps := steps + [WriteCancelled(caller)];
      steps := Meanwhile(caller, gaps[3], start, steps);
      StepsExtend(start, steps, View(), Unqueue(caller));
      RemoveFromQueue(caller);
      steps := steps + [Unqueue(caller)];
    }

    /** Polls once a round until the deadline, then gives up; `rounds` and `gaps` are the steps of others in between.
        The result is final, it belongs to the task the caller enqueued, and a cancelled task has not been run. */
    method WaitForTask(caller: nat, rounds: seq<seq<Event>>, gaps: seq<seq<Event>>) returns (result: Task, ghost steps: seq<Event>)
      requires Inv(View()) && PhaseOf(View(), caller).Waiting? && |gaps| == 4
      modifies this
      ensures Inv(View()) && Steps(old(View()), steps, View())
      ensures PhaseOf(View(), caller) == Reported(result) && Terminal(result.status)
      ensures task.Some? && result.identity == task.value.identity == old(PhaseOf(View(), caller).current.identity)
      ensures result.status == Cancelled ==> arbiter.ByWaiter? && runs == []
      ensures result.status == Finished ==> arbiter.ByExecutor?
      ensures (forall k :: 0 <= k < |rounds| ==> rounds[k] == []) && gaps == [[], [], [], []] ==>
        result == Settled(old(View()), old(PhaseOf(View(), caller).current))
    {
      hide Inv, Steps, Next;
      steps := [];
      ghost var s0 := View();
      assert Steps(s0, [], s0) by { NoSteps(s0); }
      var k := 0;
      var reported := false;
      while k < |rounds| && !reported
        invariant 0 <= k <= |rounds| && Inv(View()) && Steps(s0, steps, View())
        invariant if reported then PhaseOf(View(), caller).Reported? else PhaseOf(View(), caller).Waiting?
        invariant (forall k :: 0 <= k < |rounds| ==> rounds[k] == []) ==>
          task == s0.task && arbiter == s0.arbiter
          && (if reported then PhaseOf(View(), caller).current else Settled(View(), PhaseOf(View(), caller).current))
             == Settled(s0, PhaseOf(s0, caller).current)
      {
        steps := Meanwhile(caller, rounds[k], s0, steps);
        StepsExtend(s0, steps, View(), Poll(caller));
        reported := GetTask(caller, false);
        steps := steps + [Poll(caller)];
        k := k + 1;
      }
      if !reported {
        steps := GiveUp(caller, gaps, s0, steps);
      }
      result := callers[caller].current;
      StepsKeepInv(s0, steps, View());
      ReportedIsRight(s0, View(), caller);
    }
  }

  lemma NoSteps(s: State)
    ensures Steps(s, [], s)
  {
  }

  /** What a caller that nobody interrupts ends with: the stored result if it is final, otherwise a cancellation if the
      task is untouched, and otherwise an uncertain one. */
  function Settled(s: State, current: Task): Task {
    var seen := Seen(s, current);
    if Terminal(seen.status) then seen
    else seen.(status := if s.arbiter.Free? && seen.status == Pending then Cancelled else Uncertain)
  }

  lemma ReportedIsRight(s: State, t: State, caller: nat)
    requires Inv(s) && Inv(t) && Onward(s, t) && PhaseOf(s, caller).Waiting? && PhaseOf(t, caller).Reported?
    ensures
      var result := PhaseOf(t, caller).current;
      && Terminal(result.status) && t.task.Some?
      && result.identity == t.task.value.identity == PhaseOf(s, caller).current.identity
      && (result.status == Cancelled ==> t.arbiter.ByWaiter? && t.runs == [])
      && (result.status == Finished ==> t.arbiter.ByExecutor?)
  {
    assert PhaseOk(s, PhaseOf(s, caller)) && PhaseOk(t, PhaseOf(t, caller));
    assert t.runs != [] ==> RunOk(t, t.runs[0]);
  }

  lemma OthersLeaveAlone(s: State, e: Event, caller: nat)
    requires Enabled(s, e) && !StepOf(e, caller)
    ensures PhaseOf(Next(s, e), caller) == PhaseOf(s, caller)
  {
  }
}
