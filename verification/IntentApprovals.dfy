/** Who let an intent be executed, and when: every execution traces back to an approval or to a schedule. */
module IntentApprovals {
  import opened Common
  import opened IntentProtocol

  /** Step `m` is the write of an approval of the intent. */
  predicate ApprovesAt(ss: seq<State>, es: seq<Event>, m: nat, id: Id)
    requires m < |es| && m < |ss|
  {
    es[m].Write? && es[m].o in ss[m].drafts && ss[m].drafts[es[m].o].action == Approve && ss[m].drafts[es[m].o].id == id
  }

  /** Step `m` creates the intent from Telegram with a due time in the future. */
  predicate SchedulesAt(es: seq<Event>, m: nat, id: Id)
    requires m < |es|
  {
    es[m].Create? && es[m].id == id && es[m].fromTelegram && es[m].dueAt.Some? && es[m].dueAt.value > es[m].now
  }

  predicate LetAt(ss: seq<State>, es: seq<Event>, m: nat, id: Id)
    requires m < |es| && m < |ss|
  {
    ApprovesAt(ss, es, m, id) || SchedulesAt(es, m, id)
  }

  /** Before step `k` somebody approved the intent, or it was created with a schedule. */
  ghost predicate LetBefore(ss: seq<State>, es: seq<Event>, k: nat, id: Id)
    requires k <= |es| && |es| < |ss|
  {
    exists m :: 0 <= m < k && LetAt(ss, es, m, id)
  }

  predicate Ready(status: Status) {
    status == Approved || status == Scheduled
  }

  /** Whatever copy of the task is ready for execution, it was let through. */
  ghost predicate ReadyIsLet(ss: seq<State>, es: seq<Event>, k: nat)
    requires k <= |es| < |ss|
  {
    var s := ss[k];
    && (forall id :: id in s.tasks && Ready(s.tasks[id].status) ==> LetBefore(ss, es, k, id))
    && (forall o :: o in s.drafts && Ready(s.drafts[o].snapshot.status) ==> LetBefore(ss, es, k, s.drafts[o].id))
    && (forall w :: w in s.workers && s.workers[w].Loaded? ==>
          Ready(s.workers[w].snapshot.status) && LetBefore(ss, es, k, s.workers[w].id))
    && (forall w :: w in s.workers && s.workers[w].Reporting? ==> !Ready(s.workers[w].outcome))
  }

  lemma LetStays(ss: seq<State>, es: seq<Event>, k: nat, id: Id)
    requires k < |es| < |ss| && LetBefore(ss, es, k, id)
    ensures LetBefore(ss, es, k + 1, id)
  {
    hide LetAt;
    var m :| 0 <= m < k && LetAt(ss, es, m, id);
    assert LetAt(ss, es, m, id);
  }

  lemma LetNow(ss: seq<State>, es: seq<Event>, k: nat, id: Id)
    requires k < |es| < |ss| && LetAt(ss, es, k, id)
    ensures LetBefore(ss, es, k + 1, id)
  {
  }

  /** What one step can make ready: what was ready before, an approval's write, or a scheduled creation. */
  lemma ReadyComesFrom(s: State, e: Event, id: Id)
    requires Enabled(s, e) && id in Next(s, e).tasks && Ready(Next(s, e).tasks[id].status)
    requires forall w :: w in s.workers && s.workers[w].Reporting? ==> !Ready(s.workers[w].outcome)
    ensures
      || (id in s.tasks && Ready(s.tasks[id].status))
      || (e.Write? && s.drafts[e.o].id == id && (s.drafts[e.o].action == Approve || Ready(s.drafts[e.o].snapshot.status)))
      || (e.Create? && e.id == id && e.fromTelegram && e.dueAt.Some? && e.dueAt.value > e.now)
  {
    hide Executable, Applies;
  }

  lemma DraftsComeFrom(s: State, e: Event, o: Actor)
    requires Enabled(s, e) && o in Next(s, e).drafts
    ensures (o in s.drafts && Next(s, e).drafts[o] == s.drafts[o])
         || (Next(s, e).drafts[o].id in s.tasks && Next(s, e).drafts[o].snapshot == s.tasks[Next(s, e).drafts[o].id])
  {
    hide Executable, Applies, Effect, InitialStatus, Outcome;
  }

  lemma ClaimsComeFrom(s: State, e: Event, w: Actor)
    requires Enabled(s, e) && w in Next(s, e).workers
    ensures
      var p := Next(s, e).workers[w];
      && (p.Loaded? ==> (w in s.workers && s.workers[w] == p)
                        || (p.id in s.tasks && p.snapshot == s.tasks[p.id] && Ready(p.snapshot.status)))
      && (p.Reporting? ==> (w in s.workers && s.workers[w] == p) || !Ready(p.outcome))
  {
    hide Applies, Effect, InitialStatus;
  }

  lemma {:induction false} ReadyIsLetAlong(ss: seq<State>, es: seq<Event>, k: nat)
    requires Trace(ss, es) && Initial(ss[0]) && k <= |es|
    ensures ReadyIsLet(ss, es, k)
  {
    if k > 0 {
      ReadyIsLetAlong(ss, es, k - 1);
      hide ReadyIsLet;
      StepOfTrace(ss, es, k - 1);
      ReadyStaysLet(ss, es, k - 1);
    }
  }

  lemma StepOfTrace(ss: seq<State>, es: seq<Event>, k: nat)
    requires Trace(ss, es) && k < |es|
    ensures |ss| == |es| + 1 && Enabled(ss[k], es[k]) && ss[k + 1] == Next(ss[k], es[k])
  {
  }

  lemma ReadyStaysLet(ss: seq<State>, es: seq<Event>, k: nat)
    requires k < |es| && |ss| == |es| + 1 && ReadyIsLet(ss, es, k) && Enabled(ss[k], es[k]) && ss[k + 1] == Next(ss[k], es[k])
    ensures ReadyIsLet(ss, es, k + 1)
  {
    hide LetBefore, Next, Enabled, Ready;
    var s, t, e := ss[k], ss[k + 1], es[k];
    forall id | id in t.tasks && Ready(t.tasks[id].status) ensures LetBefore(ss, es, k + 1, id) {
      ReadyComesFrom(s, e, id);
      if LetAt(ss, es, k, id) { LetNow(ss, es, k, id); } else { WriteIsLet(ss, es, k, id); LetStays(ss, es, k, id); }
    }
    forall o | o in t.drafts && Ready(t.drafts[o].snapshot.status) ensures LetBefore(ss, es, k + 1, t.drafts[o].id) {
      DraftsComeFrom(s, e, o);
      LetStays(ss, es, k, t.drafts[o].id);
    }
    forall w | w in t.workers
      ensures t.workers[w].Loaded? ==> Ready(t.workers[w].snapshot.status) && LetBefore(ss, es, k + 1, t.workers[w].id)
      ensures t.workers[w].Reporting? ==> !Ready(t.workers[w].outcome)
    {
      ClaimsComeFrom(s, e, w);
      if t.workers[w].Loaded? { LetStays(ss, es, k, t.workers[w].id); }
    }
  }

  lemma WriteIsLet(ss: seq<State>, es: seq<Event>, k: nat, id: Id)
    requires k < |es| && |ss| == |es| + 1 && ReadyIsLet(ss, es, k) && Enabled(ss[k], es[k]) && !LetAt(ss, es, k, id)
    requires
      var (s, e) := (ss[k], es[k]);
      || (id in s.tasks && Ready(s.tasks[id].status))
      || (e.Write? && s.drafts[e.o].id == id && (s.drafts[e.o].action == Approve || Ready(s.drafts[e.o].snapshot.status)))
      || (e.Create? && e.id == id && e.fromTelegram && e.dueAt.Some? && e.dueAt.value > e.now)
    ensures LetBefore(ss, es, k, id)
  {
    hide LetBefore, Ready;
  }

  /** In every run, timely or not, whatever enters execution was approved before, or was created from Telegram with a due
      time that lay in the future. */
  lemma NothingEntersUnapproved(ss: seq<State>, es: seq<Event>, n: nat, id: Id)
    requires Trace(ss, es) && Initial(ss[0]) && n < |es| && Enters(ss[n], es[n], id)
    ensures exists m :: 0 <= m < n && LetAt(ss, es, m, id)
  {
    ReadyIsLetAlong(ss, es, n);
    assert es[n].w in ss[n].workers;
  }

  // ---- When ----

  /** In every run, an intent that was read as scheduled enters at its due time or at most two minutes later, by the clock
      reading of the claim; and no intent with a due time enters before it. */
  lemma EntersInItsWindow(ss: seq<State>, es: seq<Event>, n: nat)
    requires Trace(ss, es) && Initial(ss[0]) && n < |es| && es[n].Enter?
    ensures
      var p := ss[n].Worker(es[n].w);
      && p.Loaded? && p.now <= ss[n].clock
      && (p.snapshot.dueAt.Some? ==> p.snapshot.dueAt.value <= ss[n].clock)
      && (p.snapshot.status == Approved
          || (p.snapshot.status == Scheduled && p.snapshot.dueAt.Some? && 0 <= p.now - p.snapshot.dueAt.value <= 120_000))
  {
    EntriesAreTimely(ss, es, n);
  }

  /** Some worker entered the intent before step `k`, with this clock reading. */
  ghost predicate StartedBefore(ss: seq<State>, es: seq<Event>, k: nat, id: Id, now: int)
    requires k <= |es| < |ss|
  {
    exists m :: 0 <= m < k && StartsAt(ss, es, m, id, now)
  }

  predicate StartsAt(ss: seq<State>, es: seq<Event>, m: nat, id: Id, now: int)
    requires m < |es| && m < |ss|
  {
    Enters(ss[m], es[m], id) && ss[m].Worker(es[m].w).now == now
  }

  /** Whatever copy of the task says that it is executing tells since when. */
  ghost predicate StartsAreTrue(ss: seq<State>, es: seq<Event>, k: nat)
    requires k <= |es| < |ss|
  {
    var s := ss[k];
    && (forall id :: id in s.tasks && s.tasks[id].status == Executing ==> StartedBefore(ss, es, k, id, s.tasks[id].startedAt))
    && (forall o :: o in s.drafts && s.drafts[o].snapshot.status == Executing ==>
          StartedBefore(ss, es, k, s.drafts[o].id, s.drafts[o].snapshot.startedAt))
    && (forall w :: w in s.workers && s.workers[w].Reporting? ==> s.workers[w].outcome != Executing)
  }

  lemma StartedStays(ss: seq<State>, es: seq<Event>, k: nat, id: Id, now: int)
    requires k < |es| < |ss| && (StartedBefore(ss, es, k, id, now) || StartsAt(ss, es, k, id, now))
    ensures StartedBefore(ss, es, k + 1, id, now)
  {
    hide StartsAt;
    if StartedBefore(ss, es, k, id, now) {
      var m :| 0 <= m < k && StartsAt(ss, es, m, id, now);
      assert StartsAt(ss, es, m, id, now);
    }
  }

  lemma ExecutingComesFrom(s: State, e: Event, id: Id)
    requires Enabled(s, e) && id in Next(s, e).tasks && Next(s, e).tasks[id].status == Executing
    requires forall w :: w in s.workers && s.workers[w].Reporting? ==> s.workers[w].outcome != Executing
    ensures
      || (id in s.tasks && s.tasks[id].status == Executing && s.tasks[id].startedAt == Next(s, e).tasks[id].startedAt)
      || (e.Write? && s.drafts[e.o].id == id && s.drafts[e.o].snapshot.status == Executing
          && s.drafts[e.o].snapshot.startedAt == Next(s, e).tasks[id].startedAt)
      || (Enters(s, e, id) && s.Worker(e.w).now == Next(s, e).tasks[id].startedAt)
  {
    hide Executable, Applies;
  }

  lemma OutcomesComeFrom(s: State, e: Event, w: Actor)
    requires Enabled(s, e) && w in Next(s, e).workers && Next(s, e).workers[w].Reporting?
    ensures (w in s.workers && s.workers[w] == Next(s, e).workers[w]) || Next(s, e).workers[w].outcome != Executing
  {
    hide Applies, Effect, InitialStatus, Executable;
  }

  lemma {:induction false} StartsAreTrueAlong(ss: seq<State>, es: seq<Event>, k: nat)
    requires Trace(ss, es) && Initial(ss[0]) && k <= |es|
    ensures StartsAreTrue(ss, es, k)
  {
    if k > 0 {
      StartsAreTrueAlong(ss, es, k - 1);
      hide StartsAreTrue;
      StepOfTrace(ss, es, k - 1);
      StartsStayTrue(ss, es, k - 1);
    }
  }

  lemma StartsStayTrue(ss: seq<State>, es: seq<Event>, k: nat)
    requires k < |es| && |ss| == |es| + 1 && StartsAreTrue(ss, es, k) && Enabled(ss[k], es[k]) && ss[k + 1] == Next(ss[k], es[k])
    ensures StartsAreTrue(ss, es, k + 1)
  {
    hide StartedBefore, Next, Enabled, Enters;
    var s, t, e := ss[k], ss[k + 1], es[k];
    forall id | id in t.tasks && t.tasks[id].status == Executing ensures StartedBefore(ss, es, k + 1, id, t.tasks[id].startedAt) {
      ExecutingComesFrom(s, e, id);
      if e.Write? { assert e.o in s.drafts by { WritesADraft(s, e); } }
      StartedStays(ss, es, k, id, t.tasks[id].startedAt);
    }
    forall o | o in t.drafts && t.drafts[o].snapshot.status == Executing
      ensures StartedBefore(ss, es, k + 1, t.drafts[o].id, t.drafts[o].snapshot.startedAt)
    {
      DraftsComeFrom(s, e, o);
      StartedStays(ss, es, k, t.drafts[o].id, t.drafts[o].snapshot.startedAt);
    }
    forall w | w in t.workers && t.workers[w].Reporting? ensures t.workers[w].outcome != Executing {
      OutcomesComeFrom(s, e, w);
    }
  }

  lemma WritesADraft(s: State, e: Event)
    requires Enabled(s, e) && e.Write?
    ensures e.o in s.drafts
  {
  }

  /** In every run, an execution is marked stale only after a read, by a clock more than ten minutes past the clock reading
      of a claim that started the intent. */
  lemma StaleMarksAreLate(ss: seq<State>, es: seq<Event>, n: nat, o: Actor)
    requires Trace(ss, es) && Initial(ss[0]) && n <= |es| && o in ss[n].drafts && ss[n].drafts[o].action == MarkStale
    ensures
      var d := ss[n].drafts[o];
      && d.snapshot.status == Executing && d.now <= ss[n].clock && d.now - d.snapshot.startedAt > 600_000
      && exists m :: 0 <= m < n && StartsAt(ss, es, m, d.id, d.snapshot.startedAt)
  {
    DueAlong(ss, es, n);
    assert DraftSound(ss[n].drafts[o], ss[n].clock);
    StartsAreTrueAlong(ss, es, n);
  }

  // ---- Conversely: what is let through can run ----

  /** The worker takes the lock at this clock reading and reads the task. */
  function Claimed(s: State, w: Actor, id: Id, at: int): State
    requires !s.fenced && s.Worker(w).Idle? && id !in s.locks && at <= s.clock
  {
    var locked := Next(s, TryLock(w, id, at));
    Next(locked, Load(w))
  }

  predicate Free(s: State, w: Actor, id: Id) {
    !s.fenced && s.Worker(w).Idle? && id !in s.locks
  }

  /** A fresh intent that nobody approves: a worker that claims it by this clock gets to run it exactly when it was created
      from Telegram for a future time, and the clock is at that time or at most two minutes past it. */
  lemma UnapprovedRunsIff(s: State, id: Id, fromTelegram: bool, dueAt: Option<int>, now: int, ms: nat, w: Actor)
    requires Enabled(s, Create(id, fromTelegram, dueAt, now)) && Free(s, w, id)
    ensures
      var waiting := Next(Next(s, Create(id, fromTelegram, dueAt, now)), Advance(ms));
      var at := s.clock + ms;
      Enabled(Claimed(waiting, w, id, at), Enter(w))
      <==> fromTelegram && dueAt.Some? && now < dueAt.value <= at <= dueAt.value + 120_000
  {
  }

  /** An intent that was approved: it runs at once when no due time lay ahead of the approval's clock, and otherwise only
      from its due time to two minutes past it. */
  lemma ApprovedRunsIff(s: State, id: Id, o: Actor, now: int, ms: nat, w: Actor)
    requires id in s.tasks && s.tasks[id].status == ApprovalRequired && now <= s.clock && Free(s, w, id)
    ensures
      var read := Read(o, Approve, id, now);
      && Enabled(s, read) && Enabled(Next(s, read), Write(o))
      && var waiting := Next(Next(Next(s, read), Write(o)), Advance(ms));
         var (due, at) := (s.tasks[id].dueAt, s.clock + ms);
         Enabled(Claimed(waiting, w, id, at), Enter(w))
         <==> due.None? || due.value <= now || due.value <= at <= due.value + 120_000
  {
    var waiting := Next(Next(Next(s, Read(o, Approve, id, now)), Write(o)), Advance(ms));
    assert waiting.tasks[id] == s.tasks[id].(status := ApprovedStatus(s.tasks[id].dueAt, now));
    LoadedIff(waiting, w, id, s.clock + ms);
  }

  /** A claim loads the task exactly when it is executable by the clock reading of the claim. */
  lemma LoadedIff(s: State, w: Actor, id: Id, at: int)
    requires id in s.tasks && Free(s, w, id) && at <= s.clock
    ensures Enabled(Claimed(s, w, id, at), Enter(w)) <==> Executable(s.tasks[id], at)
  {
    hide Executable;
  }

  /** An execution started at one clock reading can be marked stale by another exactly when that is more than ten minutes
      later. */
  lemma StaleReadIff(s: State, w: Actor, o: Actor, now: int)
    requires s.Worker(w).Loaded? && s.Worker(w).now > 0 && now <= s.clock
    ensures
      var p := s.Worker(w);
      Enabled(Next(s, Enter(w)), Read(o, MarkStale, p.id, now)) <==> now - p.now > 600_000
  {
  }

  /** An operator can cancel what has not started, and expire only what is scheduled; a start without a time is never stale. */
  lemma OperatorReadsIff(s: State, o: Actor, id: Id, now: int)
    requires id in s.tasks && now <= s.clock
    ensures Enabled(s, Read(o, Approve, id, now)) <==> s.tasks[id].status == ApprovalRequired
    ensures Enabled(s, Read(o, Cancel, id, now)) <==> s.tasks[id].status in {ApprovalRequired, Scheduled, Approved}
    ensures Enabled(s, Read(o, Expire, id, now)) <==> s.tasks[id].status == Scheduled
    ensures Enabled(s, Read(o, Touch, id, now))
    ensures s.tasks[id].startedAt <= 0 ==> !Enabled(s, Read(o, MarkStale, id, now))
  {
  }
}
