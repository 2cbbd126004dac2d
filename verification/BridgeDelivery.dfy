/** From a caller's push to an executor's result: every delivery has its own push, and an undisturbed task comes back done. */
module BridgeDelivery {
  import opened Common
  import opened BridgeProtocol

  // ---- The queue ----

  function Pushes(es: seq<Event>): nat {
    if es == [] then 0 else Pushes(es[..|es| - 1]) + if es[|es| - 1].Push? then 1 else 0
  }

  function Pops(es: seq<Event>): nat {
    if es == [] then 0 else Pops(es[..|es| - 1]) + if es[|es| - 1].Pop? then 1 else 0
  }

  /** The caller removes the task from the queue, before it pushes it or after it cancelled it. */
  predicate Clears(e: Event) {
    e.Remove? || e.Unqueue?
  }

  lemma QueueStep(s: State, e: Event)
    requires Enabled(s, e)
    ensures
      var t := Next(s, e);
      && (e.Push? ==> t.queue == s.queue + 1) && (e.Pop? ==> s.queue > 0 && t.queue == s.queue - 1)
      && (Clears(e) ==> t.queue == 0) && (!e.Push? && !e.Pop? && !Clears(e) ==> t.queue == s.queue)
  {
    hide ExecutorOf, PhaseOf, MayAct, AfterCreate, Seen;
  }

  lemma CountsGrow(es: seq<Event>, n: nat)
    requires 0 < n <= |es|
    ensures Pushes(es[..n]) == Pushes(es[..n - 1]) + if es[n - 1].Push? then 1 else 0
    ensures Pops(es[..n]) == Pops(es[..n - 1]) + if es[n - 1].Pop? then 1 else 0
  {
    assert es[..n][..n - 1] == es[..n - 1];
  }

  /** In every run each delivery was pushed before, and what was pushed is delivered, waits, or was cleared away. */
  lemma {:induction false} DeliveriesWerePushed(ss: seq<State>, es: seq<Event>, n: nat)
    requires Trace(ss, es) && n <= |es|
    ensures Pops(es[..n]) + ss[n].queue <= Pushes(es[..n])
    ensures (forall i :: 0 <= i < n ==> !Clears(es[i]) || ss[i].queue == 0) ==> Pops(es[..n]) + ss[n].queue == Pushes(es[..n])
  {
    if n > 0 {
      DeliveriesWerePushed(ss, es, n - 1);
      StepAt(ss, es, n - 1);
      QueueStep(ss[n - 1], es[n - 1]);
      CountsGrow(es, n);
      hide Trace, Next, Enabled, Clears, Pushes, Pops;
    }
  }

  /** A push puts exactly one copy into the queue, whatever was there: the caller removes the others first. */
  lemma PushLeavesOne(s: State, caller: nat)
    requires Enabled(s, Remove(caller))
    ensures Enabled(Next(s, Remove(caller)), Push(caller)) && Next(Next(s, Remove(caller)), Push(caller)).queue == 1
    ensures PhaseOf(Next(Next(s, Remove(caller)), Push(caller)), caller) == Waiting(PhaseOf(s, caller).current)
  {
  }

  // ---- The executor ----

  /** After an executor has read a task and tried the arbiter key, it may act exactly when the key was free or already its own. */
  lemma ActsIff(s: State, x: nat)
    requires Inv(s) && s.task.Some?
    ensures
      var taken := Next(s, Take(x));
      && Enabled(taken, Win(x))
      && (Enabled(Next(taken, Win(x)), Run(x)) <==> s.arbiter.Free? || (x in s.executors && s.executors[x].won))
  {
  }

  /** An executor that acts records its execution and can store every result it reports. */
  lemma ActingIs(s: State, x: nat, status: Status)
    requires x in s.executors && s.executors[x].won && s.executors[x].held.Some?
    ensures
      var held := s.executors[x].held.value;
      && Enabled(s, Run(x)) && Next(s, Run(x)).runs == s.runs + [Execution(x, held.identity)]
      && (Enabled(s, Write(x, status)) <==> status in {Running, Finished, Failed, Uncertain})
      && (Enabled(s, Write(x, status)) ==> Next(s, Write(x, status)).task == Some(Task(held.identity, status)))
  {
  }

  function Last(ss: seq<State>): State
    requires ss != []
  {
    ss[|ss| - 1]
  }

  /** A run goes on with any step that its last state allows. */
  lemma GoesOn(ss: seq<State>, es: seq<Event>, e: Event)
    requires Trace(ss, es) && Enabled(Last(ss), e)
    ensures Trace(ss + [Next(Last(ss), e)], es + [e])
  {
    hide Enabled, Next;
    var more := ss + [Next(Last(ss), e)];
    assert forall i :: 0 <= i < |ss| ==> more[i] == ss[i];
  }

  /** Undisturbed, a caller's task ends up in the queue. */
  lemma TaskIsQueued(caller: nat, identity: Identity) returns (ss: seq<State>)
    ensures ss != [] && Trace(ss, [Create(caller, identity), LookAtArbiter(caller), Remove(caller), Push(caller)])
    ensures var s := Last(ss);
      && s.task == Some(Task(identity, Pending)) && s.queue == 1 && s.arbiter.Free? && s.executors == map[] && s.runs == []
      && PhaseOf(s, caller) == Waiting(Task(identity, Pending))
  {
    ss := [START];
    GoesOn(ss, [], Create(caller, identity));
    ss := ss + [Next(Last(ss), Create(caller, identity))];
    GoesOn(ss, [Create(caller, identity)], LookAtArbiter(caller));
    ss := ss + [Next(Last(ss), LookAtArbiter(caller))];
    GoesOn(ss, [Create(caller, identity), LookAtArbiter(caller)], Remove(caller));
    ss := ss + [Next(Last(ss), Remove(caller))];
    GoesOn(ss, [Create(caller, identity), LookAtArbiter(caller), Remove(caller)], Push(caller));
    ss := ss + [Next(Last(ss), Push(caller))];
  }

  /** An executor that takes a queued task runs it once and stores its result. */
  lemma TaskIsExecuted(ss0: seq<State>, es: seq<Event>, x: nat, task: Task, status: Status) returns (ss: seq<State>)
    requires ss0 != [] && Trace(ss0, es) && Last(ss0).task == Some(task) && Last(ss0).queue > 0 && Last(ss0).arbiter.Free?
    requires status in {Finished, Failed, Uncertain}
    ensures ss != [] && Trace(ss, es + [Pop] + [Take(x)] + [Win(x)] + [Run(x)] + [Write(x, status)])
    ensures var (s, t) := (Last(ss0), Last(ss));
      && t.task == Some(task.(status := status)) && t.queue == s.queue - 1 && t.arbiter == ByExecutor(x)
      && t.runs == s.runs + [Execution(x, task.identity)] && t.callers == s.callers
  {
    hide Trace, PhaseOf, AfterCreate, Seen, Terminal;
    GoesOn(ss0, es, Pop);
    ss := ss0 + [Next(Last(ss0), Pop)];
    GoesOn(ss, es + [Pop], Take(x));
    ss := ss + [Next(Last(ss), Take(x))];
    GoesOn(ss, es + [Pop] + [Take(x)], Win(x));
    ss := ss + [Next(Last(ss), Win(x))];
    GoesOn(ss, es + [Pop] + [Take(x)] + [Win(x)], Run(x));
    ss := ss + [Next(Last(ss), Run(x))];
    GoesOn(ss, es + [Pop] + [Take(x)] + [Win(x)] + [Run(x)], Write(x, status));
    ss := ss + [Next(Last(ss), Write(x, status))];
  }

  /** The undisturbed run: one caller asks, one executor takes the task, runs it once and stores the result, and the caller's
      next look reports it. */
  lemma TaskIsDelivered(caller: nat, identity: Identity, x: nat, status: Status) returns (ss: seq<State>, es: seq<Event>)
    requires status in {Finished, Failed, Uncertain}
    ensures Trace(ss, es)
    ensures es == [Create(caller, identity), LookAtArbiter(caller), Remove(caller), Push(caller),
                   Pop, Take(x), Win(x), Run(x), Write(x, status), Poll(caller)]
    ensures ss != [] && var end := Last(ss);
      && PhaseOf(end, caller) == Reported(Task(identity, status)) && end.task == Some(Task(identity, status))
      && end.runs == [Execution(x, identity)] && end.queue == 0
  {
    hide Trace;
    ss := TaskIsQueued(caller, identity);
    es := [Create(caller, identity), LookAtArbiter(caller), Remove(caller), Push(caller)];
    ss := TaskIsExecuted(ss, es, x, Task(identity, Pending), status);
    es := es + [Pop] + [Take(x)] + [Win(x)] + [Run(x)] + [Write(x, status)];
    GoesOn(ss, es, Poll(caller));
    ss := ss + [Next(Last(ss), Poll(caller))];
    es := es + [Poll(caller)];
  }
}
