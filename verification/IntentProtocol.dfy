/** The cloud intent lifecycle as interleaved Redis commands: any number of workers, operators and lock expiries. */
module IntentProtocol {
  import opened Common

  type Id = nat
  type Token = nat
  type Actor = nat

  datatype Status =
    | ApprovalRequired | Scheduled | Approved | Executing
    | Executed | Partial | Failed | Uncertain | Cancelled | Expired

  datatype Task = Task(status: Status, dueAt: Option<int>, startedAt: int)

  const GRACE_MS := 2 * 60 * 1000
  const STALE_MS := 10 * 60 * 1000

  // ---- Status rules ----

  function InitialStatus(fromTelegram: bool, dueAt: Option<int>, now: int): Status {
    if fromTelegram && dueAt.Some? && dueAt.value > now then Scheduled else ApprovalRequired
  }

  function ApprovedStatus(dueAt: Option<int>, now: int): Status {
    if dueAt.Some? && dueAt.value > now then Scheduled else Approved
  }

  predicate CanCancel(status: Status) {
    status == ApprovalRequired || status == Scheduled || status == Approved
  }

  predicate DueScheduled(t: Task, now: int) {
    t.status == Scheduled && t.dueAt.Some? && t.dueAt.value <= now && now - t.dueAt.value <= GRACE_MS
  }

  predicate Executable(t: Task, now: int) {
    t.status == Approved || DueScheduled(t, now)
  }

  predicate Stale(t: Task, now: int) {
    t.status == Executing && t.startedAt > 0 && now >= t.startedAt && now - t.startedAt > STALE_MS
  }

  /** The statuses a task has from the moment a worker entered it. */
  predicate PostClaim(status: Status) {
    status == Executing || status == Executed || status == Partial || status == Failed || status == Uncertain
  }

  predicate Outcome(status: Status) {
    PostClaim(status) && status != Executing
  }

  // ---- Operator and tick actions: a read of the whole task, later a write of the whole task ----

  datatype Action = Approve | Cancel | Expire | MarkStale | Touch

  predicate Applies(a: Action, t: Task, now: int) {
    match a
    case Approve => t.status == ApprovalRequired
    case Cancel => CanCancel(t.status)
    case Expire => t.status == Scheduled
    case MarkStale => Stale(t, now)
    case Touch => true
  }

  function Effect(a: Action, t: Task, now: int): Task {
    match a
    case Approve => t.(status := ApprovedStatus(t.dueAt, now))
    case Cancel => t.(status := Cancelled)
    case Expire => t.(status := Expired)
    case MarkStale => t.(status := Uncertain)
    case Touch => t
  }

  datatype Draft = Draft(action: Action, id: Id, snapshot: Task, now: int)

  // ---- Workers ----

  datatype Phase =
    | Idle
    | Locked(id: Id, token: Token, now: int)
    | Refused(id: Id, token: Token)
    | Loaded(id: Id, token: Token, now: int, snapshot: Task)
    | Running(id: Id, token: Token, claimed: Task)
    | Reporting(id: Id, token: Token, snapshot: Task, outcome: Status)
    | Releasing(id: Id, token: Token)

  /** `entered` records every executing write, that is, every start of a broker execution. */
  datatype State = State(
    fenced: bool, tasks: map<Id, Task>, locks: map<Id, Token>, nextToken: Token, clock: int,
    workers: map<Actor, Phase>, drafts: map<Actor, Draft>, entered: multiset<Id>)
  {
    function Worker(w: Actor): Phase {
      if w in workers then workers[w] else Idle
    }

    function Put(id: Id, t: Task): State {
      this.(tasks := tasks[id := t])
    }

    function Move(w: Actor, p: Phase): State {
      this.(workers := workers[w := p])
    }

    predicate Holds(id: Id, token: Token) {
      id in locks && locks[id] == token
    }

    /** The owned-release script: deletes the key only when it still holds the token. */
    function Release(id: Id, token: Token): State {
      if Holds(id, token) then this.(locks := locks - {id}) else this
    }
  }

  datatype Event =
    | Create(id: Id, fromTelegram: bool, dueAt: Option<int>, now: int)
    | Advance(ms: nat)
    | TryLock(w: Actor, id: Id, now: int)
    | Load(w: Actor)
    | Enter(w: Actor)
    | Report(w: Actor, outcome: Status)
    | Finish(w: Actor)
    | Unlock(w: Actor)
    | Crash(w: Actor)
    | LockExpires(id: Id)
    | Read(o: Actor, action: Action, id: Id, now: int)
    | Write(o: Actor)

  predicate Enabled(s: State, e: Event) {
    match e
    case Create(id, _, _, now) => id !in s.tasks && s.entered[id] == 0 && now <= s.clock
    case Advance(_) => true
    case TryLock(w, id, now) => !s.fenced && s.Worker(w).Idle? && now <= s.clock
    case Load(w) => s.Worker(w).Locked?
    case Enter(w) => s.Worker(w).Loaded?
    case Report(w, outcome) => s.Worker(w).Running? && Outcome(outcome)
    case Finish(w) => s.Worker(w).Reporting?
    case Unlock(w) => s.Worker(w).Refused? || s.Worker(w).Releasing?
    case Crash(w) => true
    case LockExpires(id) => id in s.locks
    case Read(o, a, id, now) => id in s.tasks && Applies(a, s.tasks[id], now) && now <= s.clock
    case Write(o) => o in s.drafts
  }

  function Next(s: State, e: Event): State
    requires Enabled(s, e)
  {
    match e
    case Create(id, tg, due, now) => s.Put(id, Task(InitialStatus(tg, due, now), due, 0))
    case Advance(ms) => s.(clock := s.clock + ms)
    case TryLock(w, id, now) =>
      if id in s.locks then s
      else s.(locks := s.locks[id := s.nextToken], nextToken := s.nextToken + 1).Move(w, Locked(id, s.nextToken, now))
    case Load(w) =>
      var Locked(id, token, now) := s.Worker(w);
      if id in s.tasks && Executable(s.tasks[id], now)
      then s.Move(w, Loaded(id, token, now, s.tasks[id]))
      else s.Move(w, Refused(id, token))
    case Enter(w) =>
      var Loaded(id, token, now, snapshot) := s.Worker(w);
      var written := snapshot.(status := Executing, startedAt := now);
      s.Put(id, written).(entered := s.entered + multiset{id}).Move(w, Running(id, token, written))
    case Report(w, outcome) =>
      var Running(id, token, claimed) := s.Worker(w);
      s.Move(w, Reporting(id, token, if id in s.tasks then s.tasks[id] else claimed, outcome))
    case Finish(w) =>
      var Reporting(id, token, snapshot, outcome) := s.Worker(w);
      s.Put(id, snapshot.(status := outcome)).Move(w, Releasing(id, token))
    case Unlock(w) => s.Release(s.Worker(w).id, s.Worker(w).token).Move(w, Idle)
    case Crash(w) => s.Move(w, Idle)
    case LockExpires(id) => s.(locks := s.locks - {id})
    case Read(o, a, id, now) => s.(drafts := s.drafts[o := Draft(a, id, s.tasks[id], now)])
    case Write(o) =>
      var Draft(a, id, snapshot, now) := s.drafts[o];
      s.Put(id, Effect(a, snapshot, now)).(drafts := s.drafts - {o})
  }

  /** The two timing assumptions the code makes: the executing write happens while the claimant still holds
      its lock, and an operator action's write finds the task as it was read. */
  predicate Timely(s: State, e: Event)
    requires Enabled(s, e)
  {
    match e
    case Enter(w) => s.Holds(s.Worker(w).id, s.Worker(w).token)
    case Write(o) => s.drafts[o].id in s.tasks && s.tasks[s.drafts[o].id] == s.drafts[o].snapshot
    case _ => true
  }

  /** What at-most-once needs of the two: a late executing write still holds the lock, and an operator's write, stale or
      not, does not reopen an intent that has been entered. */
  predicate Safe(s: State, e: Event)
    requires Enabled(s, e)
  {
    match e
    case Enter(w) => s.Holds(s.Worker(w).id, s.Worker(w).token)
    case Write(o) => s.drafts[o].id in s.entered ==> !CanCancel(Written(s.drafts[o]).status)
    case _ => true
  }

  /** The task a draft would store. */
  function Written(d: Draft): Task {
    Effect(d.action, d.snapshot, d.now)
  }

  predicate Initial(s: State) {
    s.tasks == map[] && s.locks == map[] && s.workers == map[] && s.drafts == map[] && s.entered == multiset{}
  }

  ghost predicate Trace(ss: seq<State>, es: seq<Event>) {
    && |ss| == |es| + 1
    && forall i :: 0 <= i < |es| ==> Enabled(ss[i], es[i]) && ss[i + 1] == Next(ss[i], es[i])
  }

  ghost predicate TimelyTrace(ss: seq<State>, es: seq<Event>) {
    Trace(ss, es) && forall i :: 0 <= i < |es| ==> Timely(ss[i], es[i])
  }

  ghost predicate SafeTrace(ss: seq<State>, es: seq<Event>) {
    Trace(ss, es) && forall i :: 0 <= i < |es| ==> Safe(ss[i], es[i])
  }

  // ---- The inductive invariant ----

  predicate HasToken(p: Phase) { !p.Idle? }

  predicate Executes(p: Phase) { p.Running? || p.Reporting? }

  ghost predicate TokensUnique(s: State) {
    && (forall w :: w in s.workers && HasToken(s.workers[w]) ==> s.workers[w].token < s.nextToken)
    && (forall id :: id in s.locks ==> s.locks[id] < s.nextToken)
    && (forall v, w | v in s.workers && w in s.workers && v != w && HasToken(s.workers[v]) && HasToken(s.workers[w]) ::
          s.workers[v].token != s.workers[w].token)
  }

  /** What an executable snapshot says about time. */
  predicate DueReached(t: Task, now: int) {
    t.dueAt.None? || t.dueAt.value <= now
  }

  /** A held lock keeps every other claimant out until the executing write. */
  ghost predicate ClaimsSound(s: State) {
    forall w :: w in s.workers ==> ClaimSound(s, s.workers[w])
  }

  /** What a claimant's clock reading and snapshot say about time. */
  predicate ClaimDue(p: Phase, clock: int) {
    && (p.Locked? ==> p.now <= clock)
    && (p.Loaded? ==> p.now <= clock && DueReached(p.snapshot, clock) && Executable(p.snapshot, p.now))
  }

  ghost predicate ClaimSound(s: State, p: Phase) {
    ClaimDue(p, s.clock) && (p.Loaded? && s.Holds(p.id, p.token) ==> s.entered[p.id] == 0)
  }

  ghost predicate EntriesSound(s: State) {
    && (forall id :: id in s.entered ==> s.entered[id] == 1 && id in s.tasks && !CanCancel(s.tasks[id].status))
    && (forall w :: w in s.workers && Executes(s.workers[w]) ==> s.workers[w].id in s.entered)
    && (forall w :: w in s.workers && s.workers[w].Reporting? ==> Outcome(s.workers[w].outcome))
    && (forall v, w | v in s.workers && w in s.workers && v != w && Executes(s.workers[v]) && Executes(s.workers[w]) ::
          s.workers[v].id != s.workers[w].id)
  }

  /** An approved task is due, and a scheduled one has a due time. */
  predicate TaskSound(t: Task, clock: int) {
    (t.status == Approved ==> DueReached(t, clock)) && (t.status == Scheduled ==> t.dueAt.Some?)
  }

  predicate DraftSound(d: Draft, clock: int) {
    d.now <= clock && Applies(d.action, d.snapshot, d.now) && TaskSound(d.snapshot, clock)
  }

  ghost predicate TasksSound(s: State) {
    && (forall id :: id in s.tasks ==> TaskSound(s.tasks[id], s.clock))
    && (forall o :: o in s.drafts ==> DraftSound(s.drafts[o], s.clock))
  }

  ghost predicate Inv(s: State) {
    TokensUnique(s) && ClaimsSound(s) && EntriesSound(s) && TasksSound(s)
  }

  lemma MoveKeepsTokens(s: State, w: Actor, p: Phase)
    requires TokensUnique(s)
    requires HasToken(p) ==> HasToken(s.Worker(w)) && p.token == s.Worker(w).token
    ensures TokensUnique(s.Move(w, p))
  {
  }

  lemma MoveKeepsEntries(s: State, w: Actor, p: Phase)
    requires EntriesSound(s)
    requires Executes(p) ==> Executes(s.Worker(w)) && p.id == s.Worker(w).id
    requires p.Reporting? ==> Outcome(p.outcome)
    ensures EntriesSound(s.Move(w, p))
  {
    hide Outcome, PostClaim;
  }

  /** Moving a worker on with its own token, to a phase that is sound in the current state, keeps the invariant. */
  lemma MoveKeepsInv(s: State, w: Actor, p: Phase)
    requires Inv(s) && ClaimSound(s, p)
    requires HasToken(p) ==> HasToken(s.Worker(w)) && p.token == s.Worker(w).token
    requires Executes(p) ==> Executes(s.Worker(w)) && p.id == s.Worker(w).id
    requires p.Reporting? ==> Outcome(p.outcome)
    ensures Inv(s.Move(w, p))
  {
    hide Executable, Outcome, DueReached, Applies, PostClaim, TokensUnique, EntriesSound;
    MoveKeepsTokens(s, w, p);
    MoveKeepsEntries(s, w, p);
    forall v | v in s.Move(w, p).workers ensures ClaimSound(s.Move(w, p), s.Move(w, p).workers[v]) {
      assert v != w ==> ClaimSound(s, s.workers[v]);
    }
  }

  lemma DropLockKeepsInv(s: State, id: Id)
    requires Inv(s)
    ensures Inv(s.(locks := s.locks - {id}))
  {
    hide Executable, Outcome, DueReached, Applies, PostClaim;
  }

  /** A fresh token for a free lock key and an idle worker. */
  lemma GrantKeepsTokens(s: State, w: Actor, id: Id, now: int)
    requires TokensUnique(s) && id !in s.locks
    ensures TokensUnique(s.(locks := s.locks[id := s.nextToken], nextToken := s.nextToken + 1).Move(w, Locked(id, s.nextToken, now)))
  {
    var next := s.(locks := s.locks[id := s.nextToken], nextToken := s.nextToken + 1).Move(w, Locked(id, s.nextToken, now));
    assert forall v :: v in s.workers && v != w ==> next.workers[v] == s.workers[v];
  }

  lemma TryLockKeepsInv(s: State, w: Actor, id: Id, now: int)
    requires Inv(s) && Enabled(s, TryLock(w, id, now))
    ensures Inv(Next(s, TryLock(w, id, now)))
  {
    hide Executable, Outcome, DueReached, Applies, PostClaim, EntriesSound;
    if id !in s.locks {
      var free := s.(locks := s.locks[id := s.nextToken], nextToken := s.nextToken + 1);
      var next := Next(s, TryLock(w, id, now));
      GrantKeepsTokens(s, w, id, now);
      forall v | v in next.workers ensures ClaimSound(next, next.workers[v]) {
        assert v in s.workers ==> ClaimSound(s, s.workers[v]);
      }
      assert EntriesSound(free) by { SameEntries(s, free); }
      MoveKeepsEntries(free, w, Locked(id, s.nextToken, now));
    }
  }

  lemma SameEntries(s: State, next: State)
    requires EntriesSound(s) && next.workers == s.workers && next.entered == s.entered && next.tasks == s.tasks
    ensures EntriesSound(next)
  {
  }

  lemma LoadKeepsInv(s: State, w: Actor)
    requires Inv(s) && Enabled(s, Load(w))
    ensures Inv(Next(s, Load(w)))
  {
    hide Outcome, Applies, TokensUnique;
    var Locked(id, token, now) := s.Worker(w);
    if id in s.tasks && Executable(s.tasks[id], now) {
      assert CanCancel(s.tasks[id].status);
      assert s.entered[id] == 0;
      MoveKeepsInv(s, w, Loaded(id, token, now, s.tasks[id]));
    } else {
      MoveKeepsInv(s, w, Refused(id, token));
    }
  }

  /** The only step that starts a broker execution: with the lock still held, nobody entered before. */
  lemma EnterKeepsInv(s: State, w: Actor)
    requires Inv(s) && Enabled(s, Enter(w)) && Safe(s, Enter(w))
    ensures Inv(Next(s, Enter(w)))
    ensures s.entered[s.Worker(w).id] == 0
  {
    hide Executable, Outcome, DueReached, Applies, TokensUnique;
    var Loaded(id, token, now, snapshot) := s.Worker(w);
    assert ClaimSound(s, s.workers[w]);
    var next := Next(s, Enter(w));
    var written := snapshot.(status := Executing, startedAt := now);
    var marked := s.Put(id, written).(entered := s.entered + multiset{id});
    assert TokensUnique(next) by {
      SameTokens(s, marked);
      MoveKeepsTokens(marked, w, Running(id, token, written));
    }
    forall v | v in next.workers ensures ClaimSound(next, next.workers[v]) {
      if v != w { OtherClaimLosesLock(s, w, v); }
    }
    EnterKeepsEntries(s, w);
    assert TasksSound(next) by { hide EntriesSound; }
  }

  lemma EnterKeepsEntries(s: State, w: Actor)
    requires EntriesSound(s) && Enabled(s, Enter(w)) && s.entered[s.Worker(w).id] == 0
    ensures EntriesSound(Next(s, Enter(w)))
  {
    EnterIs(s, w);
    hide Outcome, Enabled, Next;
  }

  lemma EnterIs(s: State, w: Actor)
    requires Enabled(s, Enter(w))
    ensures
      var p := s.Worker(w);
      var t := Next(s, Enter(w));
      var written := p.snapshot.(status := Executing, startedAt := p.now);
      && t.tasks == s.tasks[p.id := written] && t.entered == s.entered + multiset{p.id}
      && t.workers == s.workers[w := Running(p.id, p.token, written)]
  {
  }

  lemma OtherClaimLosesLock(s: State, w: Actor, v: Actor)
    requires Inv(s) && w in s.workers && v in s.workers && v != w && s.workers[w].Loaded?
    requires s.Holds(s.workers[w].id, s.workers[w].token)
    ensures ClaimSound(s, s.workers[v])
    ensures s.workers[v].Loaded? && s.workers[v].id == s.workers[w].id ==> !s.Holds(s.workers[v].id, s.workers[v].token)
  {
    hide ClaimSound, EntriesSound, TasksSound;
  }

  lemma ReportKeepsInv(s: State, w: Actor, outcome: Status)
    requires Inv(s) && Enabled(s, Report(w, outcome))
    ensures Inv(Next(s, Report(w, outcome)))
  {
    var Running(id, token, claimed) := s.Worker(w);
    MoveKeepsInv(s, w, Reporting(id, token, if id in s.tasks then s.tasks[id] else claimed, outcome));
  }

  /** Writing a task that does not reopen an entered intent keeps the invariant. */
  lemma PutKeepsInv(s: State, id: Id, t: Task)
    requires Inv(s)
    requires id in s.entered ==> !CanCancel(t.status)
    requires TaskSound(t, s.clock)
    ensures Inv(s.Put(id, t))
  {
    hide TokensUnique, ClaimsSound, EntriesSound, TaskSound, DraftSound;
    SameClaims(s, s.Put(id, t));
    PutKeepsEntries(s, id, t);
  }

  lemma PutKeepsEntries(s: State, id: Id, t: Task)
    requires EntriesSound(s) && (id in s.entered ==> !CanCancel(t.status))
    ensures EntriesSound(s.Put(id, t))
  {
    hide CanCancel, Outcome;
  }

  lemma SameTokens(s: State, next: State)
    requires TokensUnique(s) && next.workers == s.workers && next.locks == s.locks && next.nextToken == s.nextToken
    ensures TokensUnique(next)
  {
  }

  /** An operator's write keeps the invariant if it does not reopen an entered intent. */
  lemma WriteKeepsInv(s: State, o: Actor)
    requires Inv(s) && Enabled(s, Write(o)) && Safe(s, Write(o))
    ensures Inv(Next(s, Write(o)))
  {
    hide TokensUnique, ClaimsSound, EntriesSound, Executable, Outcome;
    var d := s.drafts[o];
    WrittenIsSound(d, s.clock);
    hide Effect, TaskSound, DraftSound;
    PutKeepsInv(s, d.id, Written(d));
    var next := s.Put(d.id, Written(d));
    assert Inv(next.(drafts := next.drafts - {o})) by { DropDraftKeepsInv(next, o); }
  }

  lemma WrittenIsSound(d: Draft, clock: int)
    requires DraftSound(d, clock)
    ensures TaskSound(Written(d), clock)
  {
  }

  lemma DropDraftKeepsInv(s: State, o: Actor)
    requires Inv(s)
    ensures Inv(s.(drafts := s.drafts - {o}))
  {
    hide TaskSound, DraftSound, TokensUnique, ClaimsSound, EntriesSound;
    SameClaims(s, s.(drafts := s.drafts - {o}));
    SameEntries(s, s.(drafts := s.drafts - {o}));
  }

  lemma SameClaims(s: State, next: State)
    requires TokensUnique(s) && ClaimsSound(s)
    requires next.workers == s.workers && next.locks == s.locks && next.nextToken == s.nextToken
    requires next.clock == s.clock && next.entered == s.entered
    ensures TokensUnique(next) && ClaimsSound(next)
  {
    assert forall w :: w in s.workers ==> ClaimSound(s, s.workers[w]) ==> ClaimSound(next, s.workers[w]);
  }

  lemma CreateKeepsInv(s: State, e: Event)
    requires Inv(s) && Enabled(s, e) && e.Create?
    ensures Inv(Next(s, e))
  {
    PutKeepsInv(s, e.id, Task(InitialStatus(e.fromTelegram, e.dueAt, e.now), e.dueAt, 0));
  }

  lemma AdvanceKeepsInv(s: State, e: Event)
    requires Inv(s) && Enabled(s, e) && e.Advance?
    ensures Inv(Next(s, e))
  {
    hide Executable, Outcome, Applies, CanCancel, TokensUnique, EntriesSound;
    SameTokens(s, Next(s, e));
    SameEntries(s, Next(s, e));
    assert forall w :: w in s.workers ==> ClaimSound(s, s.workers[w]);
  }

  lemma ReadKeepsInv(s: State, e: Event)
    requires Inv(s) && Enabled(s, e) && e.Read?
    ensures Inv(Next(s, e))
  {
    hide Executable, Outcome, Applies, PostClaim, TokensUnique, EntriesSound, ClaimsSound;
    SameClaims(s, Next(s, e));
    SameEntries(s, Next(s, e));
  }

  lemma StepKeepsInv(s: State, e: Event)
    requires Inv(s) && Enabled(s, e) && Safe(s, e)
    ensures Inv(Next(s, e))
  {
    hide Inv;
    match e
    case TryLock(w, id, now) => TryLockKeepsInv(s, w, id, now);
    case Load(w) => LoadKeepsInv(s, w);
    case Enter(w) => EnterKeepsInv(s, w);
    case Report(w, outcome) => ReportKeepsInv(s, w, outcome);
    case Finish(w) => FinishKeepsInv(s, w);
    case Unlock(w) => UnlockKeepsInv(s, w);
    case Crash(w) => MoveKeepsInv(s, w, Idle);
    case Write(o) => WriteKeepsInv(s, o);
    case Create(_, _, _, _) => CreateKeepsInv(s, e);
    case Advance(_) => AdvanceKeepsInv(s, e);
    case LockExpires(id) => DropLockKeepsInv(s, id);
    case Read(_, _, _, _) => ReadKeepsInv(s, e);
  }

  lemma FinishKeepsInv(s: State, w: Actor)
    requires Inv(s) && Enabled(s, Finish(w))
    ensures Inv(Next(s, Finish(w)))
  {
    hide TokensUnique, ClaimsSound, Executable, TasksSound;
    var Reporting(id, token, snapshot, outcome) := s.Worker(w);
    PutKeepsInv(s, id, snapshot.(status := outcome));
    MoveKeepsInv(s.Put(id, snapshot.(status := outcome)), w, Releasing(id, token));
  }

  lemma UnlockKeepsInv(s: State, w: Actor)
    requires Inv(s) && Enabled(s, Unlock(w))
    ensures Inv(Next(s, Unlock(w)))
  {
    hide Inv;
    var p := s.Worker(w);
    if s.Holds(p.id, p.token) { DropLockKeepsInv(s, p.id); }
    MoveKeepsInv(s.Release(p.id, p.token), w, Idle);
  }

  // ---- Safety over whole runs ----

  lemma {:induction false} SafeInvAlong(ss: seq<State>, es: seq<Event>, k: nat)
    requires SafeTrace(ss, es) && Inv(ss[0]) && k <= |es|
    ensures Inv(ss[k])
  {
    hide Inv, Next, Enabled;
    if k > 0 {
      SafeInvAlong(ss, es, k - 1);
      assert Safe(ss[k - 1], es[k - 1]) && ss[k - 1 + 1] == Next(ss[k - 1], es[k - 1]);
      hide Safe;
      StepKeepsInv(ss[k - 1], es[k - 1]);
    }
  }

  /** A fresh write never reopens an entered intent. */
  lemma TimelyIsSafe(s: State, e: Event)
    requires Inv(s) && Enabled(s, e) && Timely(s, e)
    ensures Safe(s, e)
  {
    hide TokensUnique, ClaimsSound;
    if e.Write? && s.drafts[e.o].id in s.entered { assert DraftSound(s.drafts[e.o], s.clock); }
  }

  lemma {:induction false} InvAlong(ss: seq<State>, es: seq<Event>, k: nat)
    requires TimelyTrace(ss, es) && Inv(ss[0]) && k <= |es|
    ensures Inv(ss[k])
  {
    hide Inv, Next, Enabled;
    if k > 0 {
      InvAlong(ss, es, k - 1);
      StepAt(ss, es, k - 1);
      hide Timely, Safe;
      TimelyIsSafe(ss[k - 1], es[k - 1]);
      StepKeepsInv(ss[k - 1], es[k - 1]);
    }
  }

  lemma StepAt(ss: seq<State>, es: seq<Event>, k: nat)
    requires TimelyTrace(ss, es) && k < |es|
    ensures |ss| == |es| + 1 && Enabled(ss[k], es[k]) && Timely(ss[k], es[k]) && ss[k + 1] == Next(ss[k], es[k])
  {
    assert Timely(ss[k], es[k]);
  }

  lemma InitialHasInv(s: State)
    requires Initial(s)
    ensures Inv(s)
  {
  }

  predicate Enters(s: State, e: Event, id: Id) {
    e.Enter? && s.Worker(e.w).Loaded? && s.Worker(e.w).id == id
  }

  lemma EnteredStaysOnce(s: State, e: Event, id: Id)
    requires Enabled(s, e)
    ensures id in s.entered ==> id in Next(s, e).entered
  {
  }

  lemma {:induction false} EnteredStays(ss: seq<State>, es: seq<Event>, i: nat, j: nat, id: Id)
    requires Trace(ss, es) && i <= j <= |es|
    ensures id in ss[i].entered ==> id in ss[j].entered
    decreases j - i
  {
    hide Enabled, Next;
    if i < j {
      EnteredStaysOnce(ss[i], es[i], id);
      EnteredStays(ss, es, i + 1, j, id);
    }
  }

  /** Each intent enters execution at most once in a whole run, however workers, operators and expiries interleave: it is
      enough that executing writes hold their lock and that stale operator writes reopen no entered intent. */
  lemma EntersAtMostOnce(ss: seq<State>, es: seq<Event>, i: nat, j: nat, id: Id)
    requires SafeTrace(ss, es) && Initial(ss[0]) && i < j < |es|
    ensures !(Enters(ss[i], es[i], id) && Enters(ss[j], es[j], id))
  {
    if Enters(ss[i], es[i], id) && Enters(ss[j], es[j], id) {
      EnteredStays(ss, es, i + 1, j, id);
      SafeInvAlong(ss, es, j);
      EnterKeepsInv(ss[j], es[j].w);
    }
  }

  /** Every entered intent has a post-claim status. */
  ghost predicate ResultsKept(s: State) {
    forall id :: id in s.entered ==> id in s.tasks && PostClaim(s.tasks[id].status)
  }

  /** An operator's write, stale or not, keeps them so exactly when it stores a post-claim status over an entered intent. */
  lemma WriteKeepsResultsIff(s: State, o: Actor)
    requires ResultsKept(s) && Enabled(s, Write(o))
    ensures ResultsKept(Next(s, Write(o)))
       <==> (s.drafts[o].id in s.entered ==> PostClaim(Written(s.drafts[o]).status))
  {
    hide PostClaim, Effect;
    var d := s.drafts[o];
    var t := Next(s, Write(o));
    assert t.tasks == s.tasks[d.id := Written(d)] && t.entered == s.entered;
  }

  lemma TimelyStepKeepsResults(s: State, e: Event)
    requires Inv(s) && ResultsKept(s) && Enabled(s, e) && Timely(s, e)
    ensures ResultsKept(Next(s, e))
  {
    if e.Write? {
      hide TokensUnique, ClaimsSound, EntriesSound;
      assert DraftSound(s.drafts[e.o], s.clock);
      WriteKeepsResultsIff(s, e.o);
    } else {
      OtherStepKeepsResults(s, e);
    }
  }

  lemma OtherStepKeepsResults(s: State, e: Event)
    requires ResultsKept(s) && ReportsOutcomes(s) && Enabled(s, e) && !e.Write?
    ensures ResultsKept(Next(s, e))
  {
    if e.Create? { CreateKeepsResults(s, e); }
    else if e.Enter? { EnterKeepsResults(s, e.w); }
    else if e.Finish? { FinishKeepsResults(s, e.w); }
    else { NoTaskWritten(s, e); }
  }

  lemma CreateKeepsResults(s: State, e: Event)
    requires ResultsKept(s) && Enabled(s, e) && e.Create?
    ensures ResultsKept(Next(s, e))
  {
    hide InitialStatus, PostClaim;
    PutKeepsResults(s, e.id, Next(s, e).tasks[e.id], s.entered);
  }

  lemma EnterKeepsResults(s: State, w: Actor)
    requires ResultsKept(s) && Enabled(s, Enter(w))
    ensures ResultsKept(Next(s, Enter(w)))
  {
    hide PostClaim;
    var t := Next(s, Enter(w));
    var id := s.workers[w].id;
    ExecutingIsPostClaim();
    PutKeepsResults(s, id, t.tasks[id], t.entered);
  }

  lemma FinishKeepsResults(s: State, w: Actor)
    requires ResultsKept(s) && ReportsOutcomes(s) && Enabled(s, Finish(w))
    ensures ResultsKept(Next(s, Finish(w)))
  {
    hide PostClaim;
    var p := s.workers[w];
    assert Outcome(p.outcome);
    PutKeepsResults(s, p.id, Next(s, Finish(w)).tasks[p.id], s.entered);
  }

  lemma NoTaskWritten(s: State, e: Event)
    requires Enabled(s, e) && !e.Write? && !e.Create? && !e.Enter? && !e.Finish?
    ensures Next(s, e).tasks == s.tasks && Next(s, e).entered == s.entered
  {
    hide Executable, Applies, Outcome;
  }

  lemma ExecutingIsPostClaim()
    ensures PostClaim(Executing)
  {
  }

  lemma PutKeepsResults(s: State, id: Id, t: Task, entered: multiset<Id>)
    requires ResultsKept(s) && forall i :: i in entered ==> i in s.entered || i == id
    requires id in entered ==> PostClaim(t.status)
    ensures forall i :: i in entered ==> i in s.tasks[id := t] && PostClaim(s.tasks[id := t][i].status)
  {
    hide PostClaim;
  }

  ghost predicate ReportsOutcomes(s: State) {
    forall w :: w in s.workers && s.workers[w].Reporting? ==> Outcome(s.workers[w].outcome)
  }

  lemma {:induction false} ResultsKeptAlong(ss: seq<State>, es: seq<Event>, k: nat)
    requires TimelyTrace(ss, es) && Initial(ss[0]) && k <= |es|
    ensures Inv(ss[k]) && ResultsKept(ss[k])
  {
    InitialHasInv(ss[0]);
    InvAlong(ss, es, k);
    if k > 0 {
      ResultsKeptAlong(ss, es, k - 1);
      StepAt(ss, es, k - 1);
      hide Inv, Next, Enabled, Timely, ResultsKept;
      TimelyStepKeepsResults(ss[k - 1], es[k - 1]);
    }
  }

  /** Once entered, a task keeps a post-claim status for the rest of a timely run. */
  lemma PostClaimAbsorbing(ss: seq<State>, es: seq<Event>, i: nat, j: nat, id: Id)
    requires TimelyTrace(ss, es) && Initial(ss[0]) && i < j <= |es| && Enters(ss[i], es[i], id)
    ensures id in ss[j].tasks && PostClaim(ss[j].tasks[id].status)
  {
    EnteredStays(ss, es, i + 1, j, id);
    ResultsKeptAlong(ss, es, j);
  }

  ghost predicate ClaimsDue(s: State) {
    forall w :: w in s.workers ==> ClaimDue(s.workers[w], s.clock)
  }

  lemma StepKeepsClaimsDue(s: State, e: Event)
    requires ClaimsDue(s) && TasksSound(s) && Enabled(s, e)
    ensures ClaimsDue(Next(s, e))
  {
    if e.Load? {
      LoadIsDue(s, e.w);
    } else {
      OtherStepKeepsClaimsDue(s, e);
    }
  }

  lemma LoadIsDue(s: State, w: Actor)
    requires ClaimsDue(s) && TasksSound(s) && Enabled(s, Load(w))
    ensures ClaimsDue(Next(s, Load(w)))
  {
    assert ClaimDue(s.workers[w], s.clock);
    hide Applies, DraftSound, Outcome;
  }

  lemma OtherStepKeepsClaimsDue(s: State, e: Event)
    requires ClaimsDue(s) && Enabled(s, e) && !e.Load?
    ensures ClaimsDue(Next(s, e))
  {
    hide Executable, Applies, Outcome, InitialStatus, Effect;
    var t := Next(s, e);
    forall w | w in t.workers ensures ClaimDue(t.workers[w], t.clock) {
      assert w in s.workers ==> ClaimDue(s.workers[w], s.clock);
    }
  }

  lemma {:induction false} DueAlong(ss: seq<State>, es: seq<Event>, k: nat)
    requires Trace(ss, es) && Initial(ss[0]) && k <= |es|
    ensures ClaimsDue(ss[k]) && TasksSound(ss[k]) && ReportsOutcomes(ss[k])
  {
    if k > 0 {
      hide Next, Enabled, ClaimsDue, TasksSound, ReportsOutcomes;
      DueAlong(ss, es, k - 1);
      assert Enabled(ss[k - 1], es[k - 1]) && ss[k - 1 + 1] == Next(ss[k - 1], es[k - 1]);
      StepKeepsClaimsDue(ss[k - 1], es[k - 1]);
      StepKeepsTasksSound(ss[k - 1], es[k - 1]);
      StepKeepsReports(ss[k - 1], es[k - 1]);
    }
  }

  /** Nothing enters before its due time; from `scheduled` only within the grace period of the claimant's clock reading.
      No assumption on the timing of writes is made. */
  lemma EntriesAreTimely(ss: seq<State>, es: seq<Event>, i: nat)
    requires Trace(ss, es) && Initial(ss[0]) && i < |es| && es[i].Enter?
    ensures
      var p := ss[i].Worker(es[i].w);
      && p.Loaded? && DueReached(p.snapshot, ss[i].clock) && p.now <= ss[i].clock
      && (p.snapshot.status == Approved || DueScheduled(p.snapshot, p.now))
  {
    DueAlong(ss, es, i);
    assert Enabled(ss[i], es[i]);
    assert ClaimDue(ss[i].workers[es[i].w], ss[i].clock);
  }

  /** The task has its final result: it was entered, shows an outcome, and nobody executes it any more. */
  ghost predicate Settled(s: State, id: Id) {
    && id in s.entered && id in s.tasks && Outcome(s.tasks[id].status)
    && forall w :: w in s.workers && Executes(s.workers[w]) ==> s.workers[w].id != id
  }

  lemma FinishSettles(s: State, w: Actor)
    requires Inv(s) && Enabled(s, Finish(w))
    ensures Settled(Next(s, Finish(w)), s.Worker(w).id) && s.Worker(w).id in Next(s, Finish(w)).tasks
    ensures Next(s, Finish(w)).tasks[s.Worker(w).id].status == s.Worker(w).outcome
  {
    hide TokensUnique, ClaimsSound, TasksSound;
  }

  lemma SettledStep(s: State, e: Event, id: Id)
    requires Inv(s) && Settled(s, id) && Enabled(s, e) && Timely(s, e)
    ensures Settled(Next(s, e), id) && id in s.tasks && id in Next(s, e).tasks
    ensures Next(s, e).tasks[id].status == s.tasks[id].status
  {
    if e.Write? {
      WriteOnSettled(s, e.o, id);
    } else if e.Enter? {
      EnterBesideSettled(s, e.w, id);
    } else {
      OtherStepOnSettled(s, e, id);
    }
  }

  /** A settled intent has been entered, so the claim that enters now is for another one. */
  lemma EnterBesideSettled(s: State, w: Actor, id: Id)
    requires ClaimsSound(s) && Settled(s, id) && Enabled(s, Enter(w)) && Timely(s, Enter(w))
    ensures Settled(Next(s, Enter(w)), id) && Next(s, Enter(w)).tasks[id].status == s.tasks[id].status
  {
    hide Executable, DueReached, Outcome;
    assert ClaimSound(s, s.workers[w]);
  }

  lemma OtherStepOnSettled(s: State, e: Event, id: Id)
    requires Settled(s, id) && Enabled(s, e) && !e.Write? && !e.Enter?
    ensures Settled(Next(s, e), id) && Next(s, e).tasks[id].status == s.tasks[id].status
  {
    hide Executable, InitialStatus, Applies, Outcome;
  }

  /** Fresh operator writes leave a finished task's status alone. */
  lemma WriteOnSettled(s: State, o: Actor, id: Id)
    requires TasksSound(s) && Settled(s, id) && Enabled(s, Write(o)) && Timely(s, Write(o))
    ensures Settled(Next(s, Write(o)), id) && Next(s, Write(o)).tasks[id].status == s.tasks[id].status
  {
    hide ApprovedStatus;
  }

  lemma OneStateMore(ss: seq<State>, es: seq<Event>)
    requires TimelyTrace(ss, es)
    ensures |ss| == |es| + 1
  {
  }

  lemma SettledIsStored(s: State, id: Id)
    requires Settled(s, id)
    ensures id in s.tasks
  {
  }

  lemma {:induction false} SettledAlong(ss: seq<State>, es: seq<Event>, i: nat, j: nat, id: Id)
    requires TimelyTrace(ss, es) && Initial(ss[0]) && i <= j <= |es| && Settled(ss[i], id)
    ensures Settled(ss[j], id) && id in ss[i].tasks && id in ss[j].tasks
    ensures ss[j].tasks[id].status == ss[i].tasks[id].status
    decreases j
  {
    hide *;
    OneStateMore(ss, es);
    SettledIsStored(ss[i], id);
    InitialHasInv(ss[0]);
    if i < j {
      StepAt(ss, es, j - 1);
      SettledAlong(ss, es, i, j - 1, id);
      InvAlong(ss, es, j - 1);
      SettledStep(ss[j - 1], es[j - 1], id);
    }
  }

  /** A finished result is never overwritten: whatever follows, the status stays as the worker reported it. */
  lemma ResultIsFinal(ss: seq<State>, es: seq<Event>, i: nat, j: nat)
    requires TimelyTrace(ss, es) && Initial(ss[0]) && i < j <= |es| && es[i].Finish?
    ensures
      var p := ss[i].Worker(es[i].w);
      p.Reporting? && p.id in ss[j].tasks && ss[j].tasks[p.id].status == p.outcome && Settled(ss[j], p.id)
  {
    InitialHasInv(ss[0]);
    InvAlong(ss, es, i);
    hide Inv, Settled, Initial, Next, Timely;
    assert ss[i + 1] == Next(ss[i], es[i]);
    FinishSettles(ss[i], es[i].w);
    SettledAlong(ss, es, i + 1, j, ss[i].Worker(es[i].w).id);
  }

  /** No step takes a lock away except its expiry and its owner's own release. */
  lemma LocksLeaveByOwnerOrExpiry(s: State, e: Event, id: Id)
    requires Enabled(s, e) && id in s.locks
    ensures
      || (id in Next(s, e).locks && Next(s, e).locks[id] == s.locks[id])
      || e == LockExpires(id)
      || (e.Unlock? && s.Worker(e.w).id == id && s.Worker(e.w).token == s.locks[id])
  {
  }

  ghost predicate AllIdle(s: State) {
    s.fenced && s.entered == multiset{} && forall w :: w in s.workers ==> s.workers[w].Idle?
  }

  lemma FencedStep(s: State, e: Event)
    requires AllIdle(s) && Enabled(s, e)
    ensures AllIdle(Next(s, e)) && !e.Enter?
  {
    assert forall w :: s.Worker(w).Idle?;
  }

  /** While the local-primary fence is up no run enters any intent. */
  lemma {:induction false} FencedNeverEnters(ss: seq<State>, es: seq<Event>, k: nat)
    requires Trace(ss, es) && Initial(ss[0]) && ss[0].fenced && k <= |es|
    ensures AllIdle(ss[k])
    ensures k < |es| ==> !es[k].Enter?
  {
    hide AllIdle;
    if k == 0 {
      assert AllIdle(ss[0]) by { InitialIsIdle(ss[0]); }
    } else {
      FencedNeverEnters(ss, es, k - 1);
      FencedStep(ss[k - 1], es[k - 1]);
    }
    if k < |es| { FencedStep(ss[k], es[k]); }
  }

  lemma InitialIsIdle(s: State)
    requires Initial(s) && s.fenced
    ensures AllIdle(s)
  {
  }

  // ---- Whether an intent can still be executed, if all writes to come are timely ----

  ghost predicate Dead(s: State, id: Id) {
    id in s.tasks && (s.tasks[id].status == Cancelled || s.tasks[id].status == Expired)
  }

  /** The task is not waiting to be executed: cancelled, expired or already claimed. */
  predicate Shut(s: State, id: Id) {
    id in s.tasks && !CanCancel(s.tasks[id].status)
  }

  /** Some worker has read the task as executable, still holds its lock and has not written yet. */
  ghost predicate ClaimPending(s: State, id: Id) {
    exists w :: Pending(s, w, id)
  }

  predicate Pending(s: State, w: Actor, id: Id) {
    w in s.workers && s.workers[w].Loaded? && s.workers[w].id == id && s.Holds(id, s.workers[w].token)
  }

  ghost predicate CanEnterTimely(s: State, id: Id) {
    exists ss, es, n :: TimelyWayIn(s, id, ss, es, n)
  }

  /** A timely run from here in which some worker enters the intent. */
  ghost predicate TimelyWayIn(s: State, id: Id, ss: seq<State>, es: seq<Event>, n: nat) {
    TimelyTrace(ss, es) && ss[0] == s && n < |es| && Enters(ss[n], es[n], id)
  }

  /** Tokens stay unique in every step, timely or not. */
  lemma StepKeepsTokens(s: State, e: Event)
    requires TokensUnique(s) && Enabled(s, e)
    ensures TokensUnique(Next(s, e))
  {
    hide Executable, Outcome, Applies, InitialStatus, Effect;
    match e
    case TryLock(w, id, now) => if id !in s.locks { GrantKeepsTokens(s, w, id, now); }
    case Create(_, _, _, _) => SameTokens(s, Next(s, e));
    case Advance(_) => SameTokens(s, Next(s, e));
    case Read(_, _, _, _) => SameTokens(s, Next(s, e));
    case Write(_) => SameTokens(s, Next(s, e));
    case LockExpires(id) => FewerLocksKeepTokens(s, s.locks - {id});
    case Unlock(w) => FewerLocksKeepTokens(s, s.locks - {s.Worker(w).id}); WorkerStepKeepsTokens(s, e);
    case _ => WorkerStepKeepsTokens(s, e);
  }

  lemma FewerLocksKeepTokens(s: State, locks: map<Id, Token>)
    requires TokensUnique(s) && forall id :: id in locks ==> id in s.locks && locks[id] == s.locks[id]
    ensures TokensUnique(s.(locks := locks))
  {
  }

  /** Steps by which one worker moves on, with the token it has or with none. */
  lemma WorkerStepKeepsTokens(s: State, e: Event)
    requires TokensUnique(s) && Enabled(s, e)
    requires e.Load? || e.Enter? || e.Report? || e.Finish? || e.Unlock? || e.Crash?
    ensures TokensUnique(Next(s, e))
  {
    hide TokensUnique, Executable, Outcome;
    var base := Next(s, e).(workers := s.workers);
    if e.Unlock? { FewerLocksKeepTokens(s, base.locks); }
    SameTokens(s.(locks := base.locks), base);
    assert Next(s, e) == base.Move(e.w, Next(s, e).workers[e.w]);
    MoveKeepsTokens(base, e.w, Next(s, e).workers[e.w]);
  }

  /** Timely steps never reopen a shut task. */
  lemma ShutStays(s: State, e: Event, id: Id)
    requires TasksSound(s) && ReportsOutcomes(s) && Shut(s, id) && Enabled(s, e) && Timely(s, e)
    ensures Shut(Next(s, e), id)
  {
    if e.Write? { WriteOnShut(s, e.o, id); } else { OtherStepOnShut(s, e, id); }
  }

  lemma WriteOnShut(s: State, o: Actor, id: Id)
    requires TasksSound(s) && Shut(s, id) && Enabled(s, Write(o)) && Timely(s, Write(o))
    ensures Shut(Next(s, Write(o)), id)
  {
    assert DraftSound(s.drafts[o], s.clock);
    hide TasksSound, ApprovedStatus, DueReached;
  }

  lemma OtherStepOnShut(s: State, e: Event, id: Id)
    requires ReportsOutcomes(s) && Shut(s, id) && Enabled(s, e) && !e.Write?
    ensures Shut(Next(s, e), id)
  {
    hide Executable, InitialStatus, Applies;
  }

  lemma NoClaimAppears(s: State, e: Event, id: Id)
    requires TokensUnique(s) && Shut(s, id) && !ClaimPending(s, id) && Enabled(s, e)
    ensures !ClaimPending(Next(s, e), id)
  {
    forall w ensures !Pending(Next(s, e), w, id) {
      NoClaimBy(s, e, id, w);
    }
  }

  lemma NoClaimBy(s: State, e: Event, id: Id, w: Actor)
    requires TokensUnique(s) && Shut(s, id) && !Pending(s, w, id) && Enabled(s, e)
    ensures !Pending(Next(s, e), w, id)
  {
    hide Outcome, Applies, Effect, InitialStatus;
    var next := Next(s, e);
    if w in next.workers && next.workers[w].Loaded? && next.workers[w].id == id {
      assert w in s.workers && next.workers[w] == s.workers[w];
      assert s.workers[w].token < s.nextToken;
    }
  }

  /** What the argument about a shut task needs, and every timely step keeps. */
  ghost predicate Steady(s: State) {
    TokensUnique(s) && TasksSound(s) && ReportsOutcomes(s)
  }

  lemma InvIsSteady(s: State)
    requires Inv(s)
    ensures Steady(s)
  {
  }

  lemma StepKeepsSteady(s: State, e: Event)
    requires Steady(s) && Enabled(s, e)
    ensures Steady(Next(s, e))
  {
    StepKeepsTokens(s, e);
    hide TokensUnique;
    StepKeepsTasksSound(s, e);
    StepKeepsReports(s, e);
  }

  lemma StepKeepsReports(s: State, e: Event)
    requires ReportsOutcomes(s) && Enabled(s, e)
    ensures ReportsOutcomes(Next(s, e))
  {
    hide Executable, Applies, InitialStatus, Effect;
    forall w | w in Next(s, e).workers && Next(s, e).workers[w].Reporting? ensures Outcome(Next(s, e).workers[w].outcome) {
      assert w in s.workers;
    }
  }

  lemma StepKeepsTasksSound(s: State, e: Event)
    requires TasksSound(s) && ReportsOutcomes(s) && Enabled(s, e)
    ensures TasksSound(Next(s, e))
  {
    if e.Write? {
      WrittenIsSound(s.drafts[e.o], s.clock);
      hide TaskSound, DraftSound;
    } else if e.Read? {
      hide Effect, Executable, DueReached;
    } else if e.Finish? {
      assert Outcome(s.workers[e.w].outcome);
      hide DraftSound;
    } else if e.Create? {
      hide DraftSound;
    } else {
      OtherStepKeepsTasksSound(s, e);
    }
  }

  lemma OtherStepKeepsTasksSound(s: State, e: Event)
    requires TasksSound(s) && Enabled(s, e) && !e.Write? && !e.Read? && !e.Finish? && !e.Create?
    ensures TasksSound(Next(s, e))
  {
    hide Executable, Applies, Outcome;
    if e.Advance? {
      forall id | id in s.tasks ensures TaskSound(s.tasks[id], s.clock + e.ms) {
        assert TaskSound(s.tasks[id], s.clock);
      }
      forall o | o in s.drafts ensures DraftSound(s.drafts[o], s.clock + e.ms) {
        assert DraftSound(s.drafts[o], s.clock);
      }
    }
  }

  lemma EnteringIsPending(s: State, e: Event, id: Id)
    requires Enabled(s, e) && Timely(s, e)
    ensures Enters(s, e, id) ==> ClaimPending(s, id)
  {
    if Enters(s, e, id) { assert Pending(s, e.w, id); }
  }

  lemma ShutStep(s: State, e: Event, id: Id)
    requires Steady(s) && Shut(s, id) && !ClaimPending(s, id) && Enabled(s, e) && Timely(s, e)
    ensures Steady(Next(s, e)) && Shut(Next(s, e), id) && !ClaimPending(Next(s, e), id) && !Enters(s, e, id)
  {
    EnteringIsPending(s, e, id);
    hide Shut, ClaimPending, TokensUnique, TasksSound, ReportsOutcomes, Next, Enters;
    NoClaimAppears(s, e, id);
    ShutStays(s, e, id);
    StepKeepsSteady(s, e);
  }

  lemma {:induction false} ShutNeverEnters(ss: seq<State>, es: seq<Event>, id: Id, n: nat)
    requires TimelyTrace(ss, es) && Steady(ss[0]) && Shut(ss[0], id) && !ClaimPending(ss[0], id) && n <= |es|
    ensures Steady(ss[n]) && Shut(ss[n], id) && !ClaimPending(ss[n], id)
    ensures n < |es| ==> !Enters(ss[n], es[n], id)
  {
    hide *;
    OneStateMore(ss, es);
    if n > 0 {
      ShutNeverEnters(ss, es, id, n - 1);
      StepAt(ss, es, n - 1);
      ShutStep(ss[n - 1], es[n - 1], id);
    }
    if n < |es| {
      StepAt(ss, es, n);
      ShutStep(ss[n], es[n], id);
    }
  }

  // ---- Ways to an execution ----

  lemma EnterAfter(s: State, e: Event, id: Id)
    requires Enabled(s, e) && Timely(s, e) && CanEnterTimely(Next(s, e), id)
    ensures CanEnterTimely(s, id)
  {
    hide Next, Enabled, Timely, TimelyWayIn;
    var ss, es, n: nat :| TimelyWayIn(Next(s, e), id, ss, es, n);
    TimelyWayInFrom(s, e, id, ss, es, n);
  }

  lemma TimelyWayInFrom(s: State, e: Event, id: Id, ss: seq<State>, es: seq<Event>, n: nat)
    requires Enabled(s, e) && Timely(s, e) && TimelyWayIn(Next(s, e), id, ss, es, n)
    ensures TimelyWayIn(s, id, [s] + ss, [e] + es, n + 1)
  {
    hide Next, Enabled, Timely, Enters, TimelyTrace;
    Prepended(s, e, ss, es);
    OneStateMore(ss, es);
    assert ([s] + ss)[n + 1] == ss[n] && ([e] + es)[n + 1] == es[n];
  }

  lemma Prepended(s: State, e: Event, ss: seq<State>, es: seq<Event>)
    requires Enabled(s, e) && Timely(s, e) && TimelyTrace(ss, es) && ss[0] == Next(s, e)
    ensures TimelyTrace([s] + ss, [e] + es)
  {
    hide Next, Enabled, Timely, TimelyTrace, Trace;
    OneStateMore(ss, es);
    var ss', es' := [s] + ss, [e] + es;
    forall i | 0 <= i < |es'| ensures StepsTimely(ss'[i], es'[i], ss'[i + 1]) {
      if i == 0 {
        assert ss'[0] == s && es'[0] == e && ss'[1] == ss[0];
      } else {
        StepAt(ss, es, i - 1);
        assert ss'[i] == ss[i - 1] && es'[i] == es[i - 1] && ss'[i + 1] == ss[i];
      }
    }
    MakesTrace(ss', es');
  }

  predicate StepsTimely(s: State, e: Event, t: State) {
    Enabled(s, e) && Timely(s, e) && t == Next(s, e)
  }

  lemma MakesTrace(ss: seq<State>, es: seq<Event>)
    requires |ss| == |es| + 1 && forall i :: 0 <= i < |es| ==> StepsTimely(ss[i], es[i], ss[i + 1])
    ensures TimelyTrace(ss, es)
  {
    hide Next, Enabled, Timely;
    forall i | 0 <= i < |es| ensures Enabled(ss[i], es[i]) && ss[i + 1] == Next(ss[i], es[i]) && Timely(ss[i], es[i]) {
      assert StepsTimely(ss[i], es[i], ss[i + 1]);
    }
  }

  lemma PendingClaimCanEnter(s: State, w: Actor, id: Id)
    requires Pending(s, w, id)
    ensures CanEnterTimely(s, id)
  {
    hide Next, Executable;
    var ss, es := [s, Next(s, Enter(w))], [Enter(w)];
    assert TimelyWayIn(s, id, ss, es, 0);
  }

  lemma FreshActor(taken: set<Actor>) returns (w: Actor)
    ensures forall v :: v in taken ==> v < w
    decreases taken
  {
    if taken == {} {
      w := 0;
    } else {
      var x :| x in taken;
      var rest := FreshActor(taken - {x});
      w := if rest > x then rest else x + 1;
      forall v | v in taken ensures v < w {
        if v != x { assert v in taken - {x}; }
      }
    }
  }

  /** A free lock and a task that is executable at some past reading of the clock. */
  lemma ExecutableCanEnter(s: State, id: Id, now: int)
    requires !s.fenced && id in s.tasks && id !in s.locks && now <= s.clock && Executable(s.tasks[id], now)
    ensures CanEnterTimely(s, id)
  {
    hide Executable, CanEnterTimely;
    var w := FreshActor(s.workers.Keys);
    var locked := Next(s, TryLock(w, id, now));
    assert locked.Worker(w) == Locked(id, s.nextToken, now) && locked.tasks == s.tasks;
    var loaded := Next(locked, Load(w));
    assert Pending(loaded, w, id);
    PendingClaimCanEnter(loaded, w, id);
    EnterAfter(locked, Load(w), id);
    EnterAfter(s, TryLock(w, id, now), id);
  }

  /** An approved or scheduled task, whoever holds the lock. */
  lemma ReadyCanEnter(s: State, id: Id)
    requires !s.fenced && id in s.tasks && s.tasks[id].status in {Approved, Scheduled} && TaskSound(s.tasks[id], s.clock)
    ensures CanEnterTimely(s, id)
    decreases if id in s.locks then 1 else 0
  {
    hide CanEnterTimely;
    if id in s.locks {
      ReadyCanEnter(Next(s, LockExpires(id)), id);
      EnterAfter(s, LockExpires(id), id);
    } else if s.tasks[id].status == Approved {
      ExecutableCanEnter(s, id, s.clock);
    } else {
      var due := s.tasks[id].dueAt.value;
      var wait := if due > s.clock then due - s.clock else 0;
      ExecutableCanEnter(Next(s, Advance(wait)), id, due);
      EnterAfter(s, Advance(wait), id);
    }
  }

  /** An open task can be executed: what is not approved yet can be approved. */
  lemma OpenCanEnter(s: State, id: Id)
    requires !s.fenced && id in s.tasks && CanCancel(s.tasks[id].status) && TaskSound(s.tasks[id], s.clock)
    ensures CanEnterTimely(s, id)
  {
    hide CanEnterTimely;
    if s.tasks[id].status == ApprovalRequired {
      var o := FreshActor(s.drafts.Keys);
      var read := Next(s, Read(o, Approve, id, s.clock));
      var approved := Next(read, Write(o));
      assert approved.tasks[id] == s.tasks[id].(status := ApprovedStatus(s.tasks[id].dueAt, s.clock));
      ReadyCanEnter(approved, id);
      EnterAfter(read, Write(o), id);
      EnterAfter(s, Read(o, Approve, id, s.clock), id);
    } else {
      ReadyCanEnter(s, id);
    }
  }

  /** Unless the fence is up, a timely run can still execute a stored intent exactly when its task is open or a worker that
      holds the lock stands between its read of the task and its executing write. */
  lemma CanEnterTimelyIff(s: State, id: Id)
    requires Steady(s) && id in s.tasks && !s.fenced
    ensures CanEnterTimely(s, id) <==> CanCancel(s.tasks[id].status) || ClaimPending(s, id)
  {
    if CanCancel(s.tasks[id].status) {
      hide CanEnterTimely, ClaimPending, TokensUnique, ReportsOutcomes;
      OpenCanEnter(s, id);
    } else {
      ShutCanEnterIff(s, id);
    }
  }

  lemma ShutCanEnterIff(s: State, id: Id)
    requires Steady(s) && Shut(s, id)
    ensures CanEnterTimely(s, id) <==> ClaimPending(s, id)
  {
    hide Steady, Shut, Pending, Next, Enabled, Timely;
    if ClaimPending(s, id) {
      var w :| Pending(s, w, id);
      PendingClaimCanEnter(s, w, id);
    } else if CanEnterTimely(s, id) {
      var ss, es, n: nat :| TimelyWayIn(s, id, ss, es, n);
      ShutNeverEnters(ss, es, id, n);
    }
  }

  /** A timely run can still execute a cancelled or expired intent exactly when, at that moment, a worker that holds the
      lock stands between its read of the task and its executing write. */
  lemma TimelyCancelIsFinalIff(s: State, id: Id)
    requires Inv(s) && Dead(s, id)
    ensures CanEnterTimely(s, id) <==> ClaimPending(s, id)
  {
    hide CanEnterTimely, ClaimPending;
    InvIsSteady(s);
    ShutCanEnterIff(s, id);
  }

  /** With the intent's lock key absent, cancelling is final as far as timely runs go. */
  lemma TimelyCancelWithFreeLockIsFinal(s: State, id: Id)
    requires Inv(s) && Dead(s, id) && id !in s.locks
    ensures !CanEnterTimely(s, id)
  {
    hide CanEnterTimely, Inv;
    TimelyCancelIsFinalIff(s, id);
  }

  // ---- When exactly a second execution is possible ----

  /** An entered intent has no claim pending. */
  lemma EnteredHasNoClaim(s: State, id: Id)
    requires Inv(s) && id in s.entered
    ensures !ClaimPending(s, id)
  {
    hide TokensUnique, EntriesSound, TasksSound;
    forall w ensures !Pending(s, w, id) {
      if w in s.workers { assert ClaimSound(s, s.workers[w]); }
    }
  }

  /** After an operator's write, stale or not, an intent that has been entered can be executed a second time exactly when
      the write stores an open status, that is, exactly when the write is not safe, if all writes to come are timely. */
  lemma TimelySecondExecutionAfterWriteIff(s: State, o: Actor)
    requires Inv(s) && !s.fenced && Enabled(s, Write(o)) && s.drafts[o].id in s.entered
    ensures CanEnterTimely(Next(s, Write(o)), s.drafts[o].id) <==> !Safe(s, Write(o))
  {
    var d := s.drafts[o];
    var t := Next(s, Write(o));
    EnteredHasNoClaim(s, d.id);
    InvIsSteady(s);
    StepKeepsSteady(s, Write(o));
    assert forall w :: Pending(t, w, d.id) ==> Pending(s, w, d.id);
    hide Inv, Steady, Effect, CanEnterTimely, CanCancel;
    CanEnterTimelyIff(t, d.id);
  }

  /** An executing write, with or without the lock, is or leads to a second execution exactly when the intent was entered
      before or another worker's claim is pending, if all writes to come are timely. */
  lemma TimelySecondExecutionAfterEnterIff(s: State, w: Actor)
    requires Inv(s) && Enabled(s, Enter(w))
    ensures
      var id := s.Worker(w).id;
      var t := Next(s, Enter(w));
      t.entered[id] > 1 || CanEnterTimely(t, id) <==> id in s.entered || exists v :: v != w && Pending(s, v, id)
  {
    var id := s.Worker(w).id;
    var t := Next(s, Enter(w));
    InvIsSteady(s);
    StepKeepsSteady(s, Enter(w));
    assert forall v :: Pending(t, v, id) <==> v != w && Pending(s, v, id);
    assert Shut(t, id) && (t.entered[id] > 1 <==> id in s.entered);
    hide Inv, Steady, Next, CanEnterTimely, Shut, Pending;
    ShutCanEnterIff(t, id);
  }

  // ---- Whose lock it is ----

  /** The key holds the token that worker `v` was granted, and no other worker has that token. */
  ghost predicate Owned(s: State, v: Actor, id: Id, token: Token) {
    && s.Holds(id, token) && token < s.nextToken
    && forall w :: w in s.workers && w != v && HasToken(s.workers[w]) ==> s.workers[w].token != token
  }

  lemma GrantIsOwned(s: State, v: Actor, id: Id, now: int)
    requires TokensUnique(s) && Enabled(s, TryLock(v, id, now)) && id !in s.locks
    ensures Owned(Next(s, TryLock(v, id, now)), v, id, s.nextToken)
  {
  }

  lemma OwnedStep(s: State, e: Event, v: Actor, id: Id, token: Token)
    requires Owned(s, v, id, token) && Enabled(s, e) && e != LockExpires(id) && e != Unlock(v)
    ensures Owned(Next(s, e), v, id, token)
  {
    hide Executable, Outcome, Applies, InitialStatus, Effect;
  }

  lemma {:induction false} TokensAlong(ss: seq<State>, es: seq<Event>, k: nat)
    requires Trace(ss, es) && Initial(ss[0]) && k <= |es|
    ensures TokensUnique(ss[k])
  {
    if k > 0 {
      hide Next, Enabled, TokensUnique;
      TokensAlong(ss, es, k - 1);
      assert ss[k - 1 + 1] == Next(ss[k - 1], es[k - 1]);
      StepKeepsTokens(ss[k - 1], es[k - 1]);
    }
  }

  lemma {:induction false} OwnedAlong(ss: seq<State>, es: seq<Event>, i: nat, j: nat, v: Actor, id: Id, token: Token)
    requires Trace(ss, es) && i <= j <= |es| && Owned(ss[i], v, id, token)
    requires forall k :: i <= k < j ==> es[k] != LockExpires(id) && es[k] != Unlock(v)
    ensures Owned(ss[j], v, id, token)
    decreases j
  {
    hide Next, Enabled, Owned;
    if i < j {
      OwnedAlong(ss, es, i, j - 1, v, id, token);
      assert ss[j - 1 + 1] == Next(ss[j - 1], es[j - 1]);
      OwnedStep(ss[j - 1], es[j - 1], v, id, token);
    }
  }

  /** Once worker `v` has been granted the lock of an intent, the key keeps that token, whatever every other worker does,
      until the key expires or `v` itself unlocks. No assumption on timing is made. */
  lemma LockStaysWithItsOwner(ss: seq<State>, es: seq<Event>, i: nat, j: nat, v: Actor, id: Id, now: int)
    requires Trace(ss, es) && Initial(ss[0]) && i < j <= |es|
    requires es[i] == TryLock(v, id, now) && id !in ss[i].locks
    requires forall k :: i < k < j ==> es[k] != LockExpires(id) && es[k] != Unlock(v)
    ensures id in ss[j].locks && ss[j].locks[id] == ss[i].nextToken
    ensures forall w :: w in ss[j].workers && w != v && HasToken(ss[j].workers[w]) ==> ss[j].workers[w].token != ss[j].locks[id]
  {
    TokensAlong(ss, es, i);
    assert Enabled(ss[i], es[i]) && ss[i + 1] == Next(ss[i], es[i]);
    hide Next, Enabled;
    GrantIsOwned(ss[i], v, id, now);
    OwnedAlong(ss, es, i + 1, j, v, id, ss[i].nextToken);
  }
}
