/** What happens when the callers of the primary/backup client break its discipline, and when exactly that shows. */
module FailoverLimits {
  import opened RedisStore
  import opened FailoverProtocol

  /** A decided call returns what the single store replied. */
  predicate Right(c: Call) {
    c.stage.Mirroring? || c.stage.Done? ==> c.stage.reply == c.stage.expected
  }

  /** The step sends a command on the key. */
  predicate IssuesAt(s: State, e: Event, key: string) {
    IsCommand(s, e) && s.calls[e.call].command.key == key
  }

  /** A run in which no command on the key is sent. */
  ghost predicate QuietRun(exec: (Command, Value) -> Effect, s: State, events: seq<Event>, t: State, key: string)
    decreases |events|
  {
    if events == [] then s == t
    else
      && Possible(s, events[0]) && !IssuesAt(s, events[0], key)
      && QuietRun(exec, Next(exec, s, events[0]), events[1..], t, key)
  }

  lemma QuietStep(exec: (Command, Value) -> Effect, s: State, e: Event, key: string)
    requires Possible(s, e) && !IssuesAt(s, e, key)
    ensures SameAt(s, Next(exec, s, e), key)
  {
    hide Mutates;
  }

  predicate SentOut(s: State, n: nat, stage: Stage, c: Command) {
    InStage(s, n, stage) && s.calls[n].command == c
  }

  lemma SentOutStays(exec: (Command, Value) -> Effect, s: State, e: Event, n: nat, stage: Stage, c: Command)
    requires Possible(s, e) && !IssuesAt(s, e, c.key)
    requires SentOut(s, n, stage, c) && (stage == OnPrimary || stage == OnBackup)
    ensures SentOut(Next(exec, s, e), n, stage, c)
  {
    hide Mutates;
  }

  /** A quiet run leaves the key alone, and a call that is about to send its command there waits. */
  lemma {:induction false} QuietRunKeeps(exec: (Command, Value) -> Effect, s: State, events: seq<Event>, t: State, n: nat, stage: Stage, c: Command)
    requires QuietRun(exec, s, events, t, c.key)
    requires SentOut(s, n, stage, c) && (stage == OnPrimary || stage == OnBackup)
    ensures SameAt(s, t, c.key) && SentOut(t, n, stage, c)
    decreases |events|
  {
    hide Next, Possible, IssuesAt, SentOut;
    if events != [] {
      QuietStep(exec, s, events[0], c.key);
      SentOutStays(exec, s, events[0], n, stage, c);
      QuietRunKeeps(exec, Next(exec, s, events[0]), events[1..], t, n, stage, c);
    }
  }

  lemma {:induction false} QuietRunLeaves(exec: (Command, Value) -> Effect, s: State, events: seq<Event>, t: State, key: string)
    requires QuietRun(exec, s, events, t, key)
    ensures SameAt(s, t, key)
    decreases |events|
  {
    hide Next, Possible, IssuesAt;
    if events != [] {
      QuietStep(exec, s, events[0], key);
      QuietRunLeaves(exec, Next(exec, s, events[0]), events[1..], t, key);
    }
  }

  // ---- A process routes by its own flag before the marker is written ----

  /** A call served by the backup while the primary still agrees replies rightly; the primary agrees afterwards exactly when
      the command leaves the value as it is, and a later call that reaches the primary replies rightly exactly when its
      reply does not depend on the first one. */
  lemma ServedBesidePrimaryIff(exec: (Command, Value) -> Effect, m: State, n: nat, after: seq<Event>, u: State, j: nat)
    requires InStage(m, n, OnBackup) && Synced(m, m.calls[n].command.key) && Fresh(m, m.calls[n].command.key)
    requires QuietRun(exec, Next(exec, m, BackupAnswers(n)), after, u, m.calls[n].command.key)
    requires InStage(u, j, OnPrimary) && u.calls[j].command.key == m.calls[n].command.key
    ensures Right(Next(exec, m, BackupAnswers(n)).calls[n])
    ensures
      var (c, d, v) := (m.calls[n].command, u.calls[j].command, At(m.primary, m.calls[n].command.key));
      && (Fresh(u, c.key) <==> exec(c, v).value == v)
      && (Right(Next(exec, u, PrimaryAnswers(j)).calls[j]) <==> exec(d, v).reply == exec(d, exec(c, v).value).reply)
  {
    BackupDecides(exec, m, n);
    QuietRunLeaves(exec, Next(exec, m, BackupAnswers(n)), after, u, m.calls[n].command.key);
    PrimaryDecides(exec, u, j);
    hide Next, QuietRun, Possible;
  }

  /** So it is with every call of a process that goes by its own flag before the shared marker is written. */
  lemma UnwrittenMarkerIff(exec: (Command, Value) -> Effect, s: State, e: Event, between: seq<Event>, m: State,
                           after: seq<Event>, u: State, j: nat)
    requires Inv(exec, s) && e.Begin? && Possible(s, e) && !Clashes(s, e.command)
    requires !s.marker && UnavailableUntil(s, e.process) > e.later
    requires QuietRun(exec, Next(exec, s, e), between, m, e.command.key) && InStage(m, |s.calls|, OnBackup)
    requires QuietRun(exec, Next(exec, m, BackupAnswers(|s.calls|)), after, u, e.command.key)
    requires InStage(u, j, OnPrimary) && u.calls[j].command.key == e.command.key
    ensures Right(Next(exec, m, BackupAnswers(|s.calls|)).calls[|s.calls|])
    ensures
      var (c, d, v) := (e.command, u.calls[j].command, At(s.primary, e.command.key));
      && (Fresh(u, c.key) <==> exec(c, v).value == v)
      && (Right(Next(exec, u, PrimaryAnswers(j)).calls[j]) <==> exec(d, v).reply == exec(d, exec(c, v).value).reply)
  {
    NoWriterThere(exec, s, e.command);
    BeginsOnBackup(exec, s, e);
    QuietRunKeeps(exec, Next(exec, s, e), between, m, |s.calls|, OnBackup, e.command);
    hide Next, Inv, QuietRun, Possible, Clashes;
    ServedBesidePrimaryIff(exec, m, |s.calls|, after, u, j);
  }

  lemma BeginsOnBackup(exec: (Command, Value) -> Effect, s: State, e: Event)
    requires e.Begin? && Possible(s, e) && UnavailableUntil(s, e.process) > e.later
    ensures SentOut(Next(exec, s, e), |s.calls|, OnBackup, e.command) && SameAt(s, Next(exec, s, e), e.command.key)
  {
  }

  lemma BackupDecides(exec: (Command, Value) -> Effect, m: State, n: nat)
    requires InStage(m, n, OnBackup)
    ensures
      var t := Next(exec, m, BackupAnswers(n));
      var c := m.calls[n].command;
      && n < |t.calls| && t.calls[n].stage == Done(exec(c, At(m.backup, c.key)).reply, exec(c, At(m.single, c.key)).reply)
      && At(t.primary, c.key) == At(m.primary, c.key)
      && At(t.backup, c.key) == exec(c, At(m.backup, c.key)).value
      && At(t.single, c.key) == exec(c, At(m.single, c.key)).value
  {
  }

  lemma PrimaryDecides(exec: (Command, Value) -> Effect, u: State, j: nat)
    requires InStage(u, j, OnPrimary)
    ensures
      var t := Next(exec, u, PrimaryAnswers(j));
      var d := u.calls[j].command;
      && j < |t.calls| && (t.calls[j].stage.Mirroring? || t.calls[j].stage.Done?)
      && t.calls[j].stage.reply == exec(d, At(u.primary, d.key)).reply
      && t.calls[j].stage.expected == exec(d, At(u.single, d.key)).reply
  {
    hide Mutates;
  }

  // ---- The flag runs out between the two readings of the clock ----

  lemma BeginsOnPrimary(exec: (Command, Value) -> Effect, s: State, e: Event)
    requires e.Begin? && Possible(s, e) && FlagRunsOut(s, e.process, e.now, e.later)
    ensures SentOut(Next(exec, s, e), |s.calls|, OnPrimary, e.command) && SameAt(s, Next(exec, s, e), e.command.key)
  {
  }

  /** Such a call is answered rightly exactly when the primary's value gives the reply that the single store's gives. */
  lemma RunOutFlagReplyIff(exec: (Command, Value) -> Effect, s: State, e: Event, between: seq<Event>, m: State)
    requires e.Begin? && Possible(s, e) && FlagRunsOut(s, e.process, e.now, e.later)
    requires QuietRun(exec, Next(exec, s, e), between, m, e.command.key)
    ensures InStage(m, |s.calls|, OnPrimary)
    ensures
      var (c, key) := (e.command, e.command.key);
      Right(Next(exec, m, PrimaryAnswers(|s.calls|)).calls[|s.calls|])
      <==> exec(c, At(s.primary, key)).reply == exec(c, At(s.single, key)).reply
  {
    BeginsOnPrimary(exec, s, e);
    QuietRunKeeps(exec, Next(exec, s, e), between, m, |s.calls|, OnPrimary, e.command);
    PrimaryDecides(exec, m, |s.calls|);
    hide Next, QuietRun, Possible;
  }

  /** A finished call counts for nothing any more. */
  function Pardoned(s: State, n: nat): State
    requires n < |s.calls|
  {
    Moved(s, n, Done("", ""))
  }

  predicate Finished(s: State, n: nat) {
    n < |s.calls| && s.calls[n].stage.Done?
  }

  lemma PardonStep(exec: (Command, Value) -> Effect, s: State, e: Event, n: nat)
    requires Finished(s, n) && Possible(s, e)
    ensures Possible(Pardoned(s, n), e) && Finished(Next(exec, s, e), n)
    ensures Next(exec, Pardoned(s, n), e) == Pardoned(Next(exec, s, e), n)
  {
    PardonAllows(exec, s, e, n);
    PardonCommutes(exec, s, e, n);
  }

  lemma PardonAllows(exec: (Command, Value) -> Effect, s: State, e: Event, n: nat)
    requires Finished(s, n) && Possible(s, e)
    ensures Possible(Pardoned(s, n), e) && Finished(Next(exec, s, e), n)
  {
    hide Mutates, Applied, Reply;
  }

  lemma PardonCommutes(exec: (Command, Value) -> Effect, s: State, e: Event, n: nat)
    requires Finished(s, n) && Possible(s, e) && Possible(Pardoned(s, n), e) && Finished(Next(exec, s, e), n)
    ensures Next(exec, Pardoned(s, n), e) == Pardoned(Next(exec, s, e), n)
  {
    hide Mutates, Applied, Reply;
    assert Next(exec, Pardoned(s, n), e).calls == Pardoned(Next(exec, s, e), n).calls;
  }

  lemma PardonDiscipline(s: State, e: Event, n: nat)
    requires Finished(s, n) && Disciplined(s, e)
    ensures Disciplined(Pardoned(s, n), e)
  {
    hide Mutates;
  }

  lemma {:induction false} PardonRun(exec: (Command, Value) -> Effect, s: State, events: seq<Event>, u: State, n: nat)
    requires Finished(s, n) && DisciplinedRun(exec, s, events, u)
    ensures Finished(u, n) && DisciplinedRun(exec, Pardoned(s, n), events, Pardoned(u, n))
    decreases |events|
  {
    hide Next, Possible, Disciplined, Finished, Pardoned;
    if events != [] {
      PardonStep(exec, s, events[0], n);
      PardonDiscipline(s, events[0], n);
      PardonRun(exec, Next(exec, s, events[0]), events[1..], u, n);
    }
  }

  /** The state after such a call has been answered and, if it changes something, mirrored. */
  function AnsweredAlone(exec: (Command, Value) -> Effect, s: State, e: Event): State
    requires e.Begin? && Possible(s, e) && FlagRunsOut(s, e.process, e.now, e.later)
  {
    BeginsOnPrimary(exec, s, e);
    var n := |s.calls|;
    var t := Next(exec, Next(exec, s, e), PrimaryAnswers(n));
    if Mutates(e.command) then Next(exec, t, Mirror(n)) else t
  }

  lemma AnsweredAloneIs(exec: (Command, Value) -> Effect, s: State, e: Event)
    requires e.Begin? && Possible(s, e) && FlagRunsOut(s, e.process, e.now, e.later)
    ensures
      var (c, n) := (e.command, |s.calls|);
      var t := AnsweredAlone(exec, s, e);
      && Finished(t, n) && t.marker == s.marker
      && Pardoned(t, n).calls == s.calls + [Call(e.process, c, Done("", ""))]
      && t.primary == Applied(exec, s.primary, c) && t.single == Applied(exec, s.single, c)
      && t.backup == if Mutates(c) then Applied(exec, s.backup, c) else s.backup
  {
    hide Applied, Mutates;
    var t := AnsweredAlone(exec, s, e);
    assert Pardoned(t, |s.calls|).calls == s.calls + [Call(e.process, e.command, Done("", ""))];
  }

  lemma PardonedHasInv(exec: (Command, Value) -> Effect, s: State, e: Event)
    requires ListIsComplete(exec) && Inv(exec, s) && e.Begin? && Possible(s, e) && !Clashes(s, e.command)
    requires FlagRunsOut(s, e.process, e.now, e.later)
    ensures Finished(AnsweredAlone(exec, s, e), |s.calls|) && Inv(exec, Pardoned(AnsweredAlone(exec, s, e), |s.calls|))
  {
    hide Inv, AnsweredAlone, Mutates, ListIsComplete, Clashes, Applied, At;
    var c := e.command;
    var u := s.(calls := s.calls + [Call(e.process, c, Done("", ""))]);
    AnsweredAloneIs(exec, s, e);
    NoWriterThere(exec, s, c);
    AppliedElsewhere(exec, s.primary, c);
    AppliedElsewhere(exec, s.single, c);
    AppliedElsewhere(exec, s.backup, c);
    AppliedAt(exec, s.primary, c);
    AppliedAt(exec, s.single, c);
    AppliedAt(exec, s.backup, c);
    StoresMove(exec, s, Pardoned(AnsweredAlone(exec, s, e), |s.calls|), c);
  }

  lemma AppliedAt(exec: (Command, Value) -> Effect, store: Store, c: Command)
    ensures At(Applied(exec, store, c), c.key) == exec(c, At(store, c.key)).value
  {
  }

  /** One finished call joins, and the stores change at its key only, where nobody is in the way. */
  lemma StoresMove(exec: (Command, Value) -> Effect, s: State, t: State, c: Command)
    requires Inv(exec, s) && !Clashes(s, c) && t.marker == s.marker
    requires |t.calls| == |s.calls| + 1 && t.calls[..|s.calls|] == s.calls && t.calls[|s.calls|].stage == Done("", "")
    requires forall k :: k != c.key ==> SameAt(s, t, k)
    requires IdleOk(t, c.key) && (!Mutates(c) ==> At(t.backup, c.key) == At(s.backup, c.key) && At(t.single, c.key) == At(s.single, c.key) && At(t.primary, c.key) == At(s.primary, c.key))
    ensures Inv(exec, t)
  {
    hide Mutates, IdleOk;
    forall i | 0 <= i < |t.calls| ensures CallOk(exec, t, t.calls[i]) {
      if i < |s.calls| {
        assert t.calls[i] == s.calls[i] && CallOk(exec, s, s.calls[i]);
        if !t.calls[i].stage.Done? {
          assert InFlight(s.calls[i], c.key) <==> s.calls[i].command.key == c.key;
          assert SameAt(s, t, s.calls[i].command.key);
        }
      }
    }
    forall i, j | 0 <= i < j < |t.calls| && BothInFlight(t.calls[i], t.calls[j])
      ensures !Mutates(t.calls[i].command) && !Mutates(t.calls[j].command)
    {
      assert t.calls[i] == s.calls[i] && t.calls[j] == s.calls[j];
    }
    forall k | !Writing(t, k) ensures IdleOk(t, k) {
      if k != c.key {
        WritingAfterBegin(s, t, k);
        IdleMoves(s, t, k);
      }
    }
  }

  lemma IdleMoves(s: State, t: State, k: string)
    requires SameAt(s, t, k) && t.marker == s.marker
    ensures IdleOk(s, k) ==> IdleOk(t, k)
  {
  }

  /** The harm is confined to that reply: in every disciplined run that follows, all other calls return the replies of one
      single store. */
  lemma RunOutFlagHarmsOneReply(exec: (Command, Value) -> Effect, s: State, e: Event, events: seq<Event>, u: State)
    requires ListIsComplete(exec) && Inv(exec, s) && e.Begin? && Possible(s, e) && !Clashes(s, e.command)
    requires FlagRunsOut(s, e.process, e.now, e.later) && DisciplinedRun(exec, AnsweredAlone(exec, s, e), events, u)
    ensures forall i :: 0 <= i < |u.calls| && i != |s.calls| && u.calls[i].stage.Done? ==> u.calls[i].stage.reply == u.calls[i].stage.expected
  {
    hide Inv, AnsweredAlone, DisciplinedRun, ListIsComplete, Clashes;
    var n := |s.calls|;
    PardonedHasInv(exec, s, e);
    PardonRun(exec, AnsweredAlone(exec, s, e), events, u, n);
    RunKeepsInv(exec, Pardoned(AnsweredAlone(exec, s, e), n), events, Pardoned(u, n));
    forall i | 0 <= i < |u.calls| && i != n && u.calls[i].stage.Done? ensures u.calls[i].stage.reply == u.calls[i].stage.expected {
      CallsAreOk(exec, Pardoned(u, n), i);
    }
  }

  /** If the primary fails instead, with or without effect, nothing is lost: the call goes on to the backup. */
  lemma RunOutFlagFailureIsHarmless(exec: (Command, Value) -> Effect, s: State, e: Event, applied: bool)
    requires ListIsComplete(exec) && Inv(exec, s) && e.Begin? && Possible(s, e) && !Clashes(s, e.command)
    requires FlagRunsOut(s, e.process, e.now, e.later)
    ensures SentOut(Next(exec, s, e), |s.calls|, OnPrimary, e.command)
    ensures Inv(exec, Next(exec, Next(exec, s, e), PrimaryFails(|s.calls|, applied)))
  {
    hide Inv, Mutates, ListIsComplete, Clashes, Applied, At;
    BeginsOnPrimary(exec, s, e);
    var c, n := e.command, |s.calls|;
    var u := s.(calls := s.calls + [Call(e.process, c, Failed)]);
    var t := Next(exec, Next(exec, s, e), PrimaryFails(n, applied));
    NoWriterThere(exec, s, c);
    NewCallKeepsInv(exec, s, Call(e.process, c, Failed));
    AppliedElsewhere(exec, s.primary, c);
    OthersStayOk(exec, u, t, n);
  }

  // ---- Two calls on one key overlap ----

  /** How far a call has got: nothing sent, the primary failed, decided but not mirrored, finished. */
  datatype Standing = Waiting | Broken | Half | Over

  function StandingOf(stage: Stage): Standing {
    match stage
    case Asking => Waiting
    case Asked(_) => Waiting
    case OnPrimary => Waiting
    case Mirroring(_, _) => Half
    case Done(_, _) => Over
    case _ => Broken
  }

  /** The values at one key: on the primary, on the backup, and in the single store. */
  datatype Values = Values(primary: Value, backup: Value, single: Value)

  function ValuesAt(s: State, key: string): Values {
    Values(At(s.primary, key), At(s.backup, key), At(s.single, key))
  }

  function Then(exec: (Command, Value) -> Effect, c: Command, v: Value): Value {
    exec(c, v).value
  }

  /** Where two overlapping calls of `c` and `d` can leave a key that held `v`. */
  predicate Place(exec: (Command, Value) -> Effect, c: Command, d: Command, v: Value, x: Standing, y: Standing, at: Values) {
    var cv, dv := Then(exec, c, v), Then(exec, d, v);
    var both := {Then(exec, d, cv), Then(exec, c, dv)};
    match (x, y)
    case (Waiting, Waiting) => at == Values(v, v, v)
    case (Half, Waiting) => at == Values(cv, v, cv)
    case (Waiting, Half) => at == Values(dv, v, dv)
    case (Over, Waiting) => at.backup == at.single == cv && at.primary in {v, cv}
    case (Waiting, Over) => at.backup == at.single == dv && at.primary in {v, dv}
    case (Broken, Waiting) => at.backup == at.single == v && at.primary in {v, cv}
    case (Waiting, Broken) => at.backup == at.single == v && at.primary in {v, dv}
    case (Broken, Broken) => at.backup == at.single == v
    case (Half, Half) => at.backup == v && at.single in both
    case (Half, Broken) => at.backup == v && at.single == cv
    case (Broken, Half) => at.backup == v && at.single == dv
    case (Half, Over) => at.backup == dv && at.single in both
    case (Over, Half) => at.backup == cv && at.single in both
    case (Over, Broken) => at.backup == at.single == cv
    case (Broken, Over) => at.backup == at.single == dv
    case (Over, Over) => at.backup in both && at.single in both
  }

  lemma PlaceSwaps(exec: (Command, Value) -> Effect, c: Command, d: Command, v: Value, x: Standing, y: Standing, at: Values)
    ensures Place(exec, c, d, v, x, y, at) <==> Place(exec, d, c, v, y, x, at)
  {
  }

  /** Neither reply depends on whether the other command has been executed. */
  predicate Indifferent(exec: (Command, Value) -> Effect, c: Command, d: Command, v: Value) {
    && exec(c, v).reply == exec(c, Then(exec, d, v)).reply
    && exec(d, v).reply == exec(d, Then(exec, c, v)).reply
  }

  /** The values after one command of the call; the other steps leave them alone. */
  function Moves(exec: (Command, Value) -> Effect, c: Command, e: Event, at: Values): Values {
    match e
    case PrimaryAnswers(_) => at.(primary := Then(exec, c, at.primary), single := Then(exec, c, at.single))
    case PrimaryFails(_, applied) => if applied then at.(primary := Then(exec, c, at.primary)) else at
    case BackupAnswers(_) => at.(backup := Then(exec, c, at.backup), single := Then(exec, c, at.single))
    case Mirror(_) => at.(backup := Then(exec, c, at.backup))
    case _ => at
  }

  /** How a call that stands at `x` can stand after the step. */
  predicate Advances(c: Command, e: Event, x: Standing, x': Standing) {
    match e
    case PrimaryAnswers(_) => x == Waiting && x' == if Mutates(c) then Half else Over
    case PrimaryFails(_, _) => x == Waiting && x' == Broken
    case BackupAnswers(_) => x == Broken && x' == Over
    case Mirror(_) => x == Half && x' == Over
    case _ => x' == x || (x == Waiting && x' == Broken)
  }

  /** What the deciding store holds against the single store. */
  predicate DecidesRightly(exec: (Command, Value) -> Effect, c: Command, e: Event, at: Values) {
    match e
    case PrimaryAnswers(_) => exec(c, at.primary).reply == exec(c, at.single).reply
    case BackupAnswers(_) => exec(c, at.backup).reply == exec(c, at.single).reply
    case _ => true
  }

  lemma FirstMoves(exec: (Command, Value) -> Effect, c: Command, d: Command, v: Value, x: Standing, y: Standing, at: Values, e: Event, x': Standing)
    requires ListIsComplete(exec) && Place(exec, c, d, v, x, y, at) && Advances(c, e, x, x')
    ensures Place(exec, c, d, v, x', y, Moves(exec, c, e, at))
    ensures Indifferent(exec, c, d, v) ==> DecidesRightly(exec, c, e, at)
  {
    Unchanged(exec, c, v);
    Unchanged(exec, c, Then(exec, d, v));
    Unchanged(exec, d, v);
    hide ListIsComplete, Mutates;
  }

  lemma Unchanged(exec: (Command, Value) -> Effect, c: Command, v: Value)
    requires ListIsComplete(exec)
    ensures !Mutates(c) ==> Then(exec, c, v) == v
  {
    hide Mutates;
  }

  /** A step of a call does to the values at its key what its command does. */
  lemma CallMoves(exec: (Command, Value) -> Effect, s: State, e: Event, n: nat)
    requires Possible(s, e) && !e.Begin? && e.call == n
    ensures n < |s.calls|
    ensures
      var (t, c) := (Next(exec, s, e), s.calls[n].command);
      && |t.calls| == |s.calls| && t.calls[n].command == c
      && ValuesAt(t, c.key) == Moves(exec, c, e, ValuesAt(s, c.key))
      && Advances(c, e, StandingOf(s.calls[n].stage), StandingOf(t.calls[n].stage))
      && (Right(s.calls[n]) && DecidesRightly(exec, c, e, ValuesAt(s, c.key)) ==> Right(t.calls[n]))
      && (forall i :: 0 <= i < |s.calls| && i != n ==> t.calls[i] == s.calls[i])
  {
    hide Mutates;
  }

  lemma BeginLeavesCalls(exec: (Command, Value) -> Effect, s: State, e: Event)
    requires Possible(s, e) && e.Begin?
    ensures |Next(exec, s, e).calls| == |s.calls| + 1 && forall i :: 0 <= i < |s.calls| ==> Next(exec, s, e).calls[i] == s.calls[i]
    ensures forall key :: ValuesAt(Next(exec, s, e), key) == ValuesAt(s, key)
  {
  }

  predicate Pair(s: State, i: nat, j: nat, c: Command, d: Command) {
    && i < |s.calls| && j < |s.calls| && i != j && c.key == d.key
    && s.calls[i].command == c && s.calls[j].command == d
  }

  /** A run in which nobody but the two calls sends commands on their key. */
  ghost predicate PairRun(exec: (Command, Value) -> Effect, s: State, events: seq<Event>, t: State, i: nat, j: nat, key: string)
    decreases |events|
  {
    if events == [] then s == t
    else
      && Possible(s, events[0]) && (IssuesAt(s, events[0], key) ==> events[0].call in {i, j})
      && PairRun(exec, Next(exec, s, events[0]), events[1..], t, i, j, key)
  }

  predicate PairPlaced(exec: (Command, Value) -> Effect, s: State, i: nat, j: nat, c: Command, d: Command, v: Value) {
    && Pair(s, i, j, c, d)
    && Place(exec, c, d, v, StandingOf(s.calls[i].stage), StandingOf(s.calls[j].stage), ValuesAt(s, c.key))
    && (Indifferent(exec, c, d, v) ==> Right(s.calls[i]) && Right(s.calls[j]))
  }

  lemma PairSwaps(exec: (Command, Value) -> Effect, s: State, i: nat, j: nat, c: Command, d: Command, v: Value)
    ensures PairPlaced(exec, s, i, j, c, d, v) <==> PairPlaced(exec, s, j, i, d, c, v)
  {
    if Pair(s, i, j, c, d) {
      PlaceSwaps(exec, c, d, v, StandingOf(s.calls[i].stage), StandingOf(s.calls[j].stage), ValuesAt(s, c.key));
    }
    hide Place, StandingOf;
  }

  lemma FirstStep(exec: (Command, Value) -> Effect, s: State, e: Event, i: nat, j: nat, c: Command, d: Command, v: Value)
    requires ListIsComplete(exec) && PairPlaced(exec, s, i, j, c, d, v) && Possible(s, e) && !e.Begin? && e.call == i
    ensures PairPlaced(exec, Next(exec, s, e), i, j, c, d, v)
  {
    hide ListIsComplete, Place, StandingOf, ValuesAt, Next, Possible, Moves, Advances, DecidesRightly, Indifferent, Right;
    CallMoves(exec, s, e, i);
    var t := Next(exec, s, e);
    FirstMoves(exec, c, d, v, StandingOf(s.calls[i].stage), StandingOf(s.calls[j].stage), ValuesAt(s, c.key), e, StandingOf(t.calls[i].stage));
  }

  lemma PairStep(exec: (Command, Value) -> Effect, s: State, e: Event, i: nat, j: nat, c: Command, d: Command, v: Value)
    requires ListIsComplete(exec) && PairPlaced(exec, s, i, j, c, d, v) && Possible(s, e)
    requires IssuesAt(s, e, c.key) ==> e.call in {i, j}
    ensures PairPlaced(exec, Next(exec, s, e), i, j, c, d, v)
  {
    hide ListIsComplete, Place, StandingOf, Possible, Next, Indifferent, Right;
    if e.Begin? {
      BeginLeavesCalls(exec, s, e);
    } else if e.call == i {
      FirstStep(exec, s, e, i, j, c, d, v);
    } else if e.call == j {
      PairSwaps(exec, s, i, j, c, d, v);
      FirstStep(exec, s, e, j, i, d, c, v);
      PairSwaps(exec, Next(exec, s, e), i, j, c, d, v);
    } else {
      CallMoves(exec, s, e, e.call);
      QuietStep(exec, s, e, c.key);
    }
  }

  lemma {:induction false} PairAlong(exec: (Command, Value) -> Effect, s: State, events: seq<Event>, t: State,
                                     i: nat, j: nat, c: Command, d: Command, v: Value)
    requires ListIsComplete(exec) && PairPlaced(exec, s, i, j, c, d, v) && PairRun(exec, s, events, t, i, j, c.key)
    ensures PairPlaced(exec, t, i, j, c, d, v)
    decreases |events|
  {
    hide ListIsComplete, PairPlaced, Possible, Next, IssuesAt;
    if events != [] {
      PairStep(exec, s, events[0], i, j, c, d, v);
      PairAlong(exec, Next(exec, s, events[0]), events[1..], t, i, j, c, d, v);
    }
  }

  /** Both calls are about to send their commands to the primary, and all stores hold `v` at their key. */
  predicate BothSent(s: State, i: nat, j: nat, c: Command, d: Command, v: Value) {
    && Pair(s, i, j, c, d) && s.calls[i].stage == s.calls[j].stage == OnPrimary && ValuesAt(s, c.key) == Values(v, v, v)
  }

  lemma BothSentArePlaced(exec: (Command, Value) -> Effect, s: State, i: nat, j: nat, c: Command, d: Command, v: Value)
    requires BothSent(s, i, j, c, d, v)
    ensures PairPlaced(exec, s, i, j, c, d, v)
  {
  }

  predicate BothRight(t: State, i: nat, j: nat) {
    i < |t.calls| && j < |t.calls| && Right(t.calls[i]) && Right(t.calls[j])
  }

  /** Two overlapping calls on one key, both sent to the primary, are answered like one store in every run, whatever fails and
      however their commands interleave, exactly when neither reply depends on whether the other command was executed. */
  lemma OverlapRepliesIff(exec: (Command, Value) -> Effect, s: State, i: nat, j: nat, c: Command, d: Command, v: Value)
    requires ListIsComplete(exec) && BothSent(s, i, j, c, d, v)
    ensures Indifferent(exec, c, d, v) <==>
      forall events, t :: PairRun(exec, s, events, t, i, j, c.key) ==> BothRight(t, i, j)
  {
    if Indifferent(exec, c, d, v) {
      forall events, t | PairRun(exec, s, events, t, i, j, c.key) ensures BothRight(t, i, j) {
        BothSentArePlaced(exec, s, i, j, c, d, v);
        PairAlong(exec, s, events, t, i, j, c, d, v);
      }
    } else if exec(d, v).reply != exec(d, Then(exec, c, v)).reply {
      var events, t := WrongReply(exec, s, i, j, c, d, v);
    } else {
      var events, t := WrongReply(exec, s, j, i, d, c, v);
      PairRunSwaps(exec, s, events, t, i, j, c.key);
    }
  }

  lemma {:induction false} PairRunSwaps(exec: (Command, Value) -> Effect, s: State, events: seq<Event>, t: State, i: nat, j: nat, key: string)
    requires PairRun(exec, s, events, t, j, i, key)
    ensures PairRun(exec, s, events, t, i, j, key)
    decreases |events|
  {
    hide Possible, Next, IssuesAt;
    if events != [] { PairRunSwaps(exec, Next(exec, s, events[0]), events[1..], t, i, j, key); }
  }

  lemma {:induction false} PairRunExtends(exec: (Command, Value) -> Effect, s: State, events: seq<Event>, m: State, e: Event,
                                          i: nat, j: nat, key: string)
    requires PairRun(exec, s, events, m, i, j, key) && Possible(m, e) && !e.Begin? && e.call in {i, j}
    ensures PairRun(exec, s, events + [e], Next(exec, m, e), i, j, key)
    decreases |events|
  {
    hide Next, Possible, IssuesAt;
    if events == [] {
      assert [e][1..] == [];
      assert PairRun(exec, Next(exec, m, e), [e][1..], Next(exec, m, e), i, j, key);
      assert events + [e] == [e];
    } else {
      PairRunExtends(exec, Next(exec, s, events[0]), events[1..], m, e, i, j, key);
      assert (events + [e])[1..] == events[1..] + [e];
    }
  }

  /** A call whose primary fails without effect gets to the backup and leaves the stores and the other calls alone. */
  lemma FailsOver(exec: (Command, Value) -> Effect, s: State, events: seq<Event>, m: State, i: nat, j: nat, key: string)
    returns (more: seq<Event>, t: State)
    requires PairRun(exec, s, events, m, i, j, key) && InStage(m, i, OnPrimary) && j < |m.calls| && j != i
    ensures PairRun(exec, s, more, t, i, j, key) && SentOut(t, i, OnBackup, m.calls[i].command)
    ensures t.primary == m.primary && t.backup == m.backup && t.single == m.single && j < |t.calls| && t.calls[j] == m.calls[j]
  {
    hide PairRun;
    var c := m.calls[i].command;
    PairRunExtends(exec, s, events, m, PrimaryFails(i, false), i, j, key);
    var m1 := Next(exec, m, PrimaryFails(i, false));
    PairRunExtends(exec, s, events + [PrimaryFails(i, false)], m1, SetLocalFlag(i, 0), i, j, key);
    var m2 := Next(exec, m1, SetLocalFlag(i, 0));
    more := events + [PrimaryFails(i, false)] + [SetLocalFlag(i, 0)];
    PairRunExtends(exec, s, more, m2, SetMarker(i), i, j, key);
    more, t := more + [SetMarker(i)], Next(exec, m2, SetMarker(i));
  }

  /** The first call fails over and is decided on the backup; then the primary, which has not seen it, answers the second. */
  lemma WrongReply(exec: (Command, Value) -> Effect, s: State, i: nat, j: nat, c: Command, d: Command, v: Value)
    returns (events: seq<Event>, t: State)
    requires BothSent(s, i, j, c, d, v) && exec(d, v).reply != exec(d, Then(exec, c, v)).reply
    ensures PairRun(exec, s, events, t, i, j, c.key) && j < |t.calls| && !Right(t.calls[j])
  {
    assert PairRun(exec, s, [], s, i, j, c.key);
    hide PairRun, Next;
    var m;
    events, m := FailsOver(exec, s, [], s, i, j, c.key);
    BackupDecides(exec, m, i);
    CallMoves(exec, m, BackupAnswers(i), i);
    PairRunExtends(exec, s, events, m, BackupAnswers(i), i, j, c.key);
    events, m := events + [BackupAnswers(i)], Next(exec, m, BackupAnswers(i));
    PrimaryDecides(exec, m, j);
    PairRunExtends(exec, s, events, m, PrimaryAnswers(j), i, j, c.key);
    events, t := events + [PrimaryAnswers(j)], Next(exec, m, PrimaryAnswers(j));
  }

  lemma OverAndCommuting(exec: (Command, Value) -> Effect, t: State, i: nat, j: nat, c: Command, d: Command, v: Value)
    requires PairPlaced(exec, t, i, j, c, d, v) && Finished(t, i) && Finished(t, j)
    requires Then(exec, d, Then(exec, c, v)) == Then(exec, c, Then(exec, d, v))
    ensures Synced(t, c.key)
  {
  }

  /** Once both have finished, the backup holds the single store's value in every run exactly when the commands commute. */
  lemma OverlapStoresIff(exec: (Command, Value) -> Effect, s: State, i: nat, j: nat, c: Command, d: Command, v: Value)
    requires ListIsComplete(exec) && BothSent(s, i, j, c, d, v)
    ensures Then(exec, d, Then(exec, c, v)) == Then(exec, c, Then(exec, d, v)) <==>
      forall events, t :: PairRun(exec, s, events, t, i, j, c.key) && Finished(t, i) && Finished(t, j) ==> Synced(t, c.key)
  {
    hide PairRun, PairPlaced, BothSent, Finished, Mutates;
    if Then(exec, d, Then(exec, c, v)) == Then(exec, c, Then(exec, d, v)) {
      forall events, t | PairRun(exec, s, events, t, i, j, c.key) && Finished(t, i) && Finished(t, j) ensures Synced(t, c.key) {
        BothSentArePlaced(exec, s, i, j, c, d, v);
        PairAlong(exec, s, events, t, i, j, c, d, v);
        OverAndCommuting(exec, t, i, j, c, d, v);
      }
    } else {
      Unchanged(exec, c, v);
      Unchanged(exec, c, Then(exec, d, v));
      Unchanged(exec, d, v);
      Unchanged(exec, d, Then(exec, c, v));
      var events, t := MirrorsSwap(exec, s, i, j, c, d, v);
    }
  }

  /** The primary answers both calls, and the backup sees them in the other order. */
  lemma MirrorsSwap(exec: (Command, Value) -> Effect, s: State, i: nat, j: nat, c: Command, d: Command, v: Value)
    returns (events: seq<Event>, t: State)
    requires BothSent(s, i, j, c, d, v) && Mutates(c) && Mutates(d)
    ensures PairRun(exec, s, events, t, i, j, c.key) && Finished(t, i) && Finished(t, j)
    ensures At(t.single, c.key) == Then(exec, d, Then(exec, c, v)) && At(t.backup, c.key) == Then(exec, c, Then(exec, d, v))
  {
    events, t := BothAnswered(exec, s, i, j, c, d, v);
    hide Mutates, PairRun, Next;
    events, t := PairThen(exec, s, events, t, Mirror(j), i, j, c.key);
    events, t := PairThen(exec, s, events, t, Mirror(i), i, j, c.key);
  }

  lemma BothAnswered(exec: (Command, Value) -> Effect, s: State, i: nat, j: nat, c: Command, d: Command, v: Value)
    returns (events: seq<Event>, t: State)
    requires BothSent(s, i, j, c, d, v) && Mutates(c) && Mutates(d)
    ensures PairRun(exec, s, events, t, i, j, c.key) && Pair(t, i, j, c, d)
    ensures t.calls[i].stage.Mirroring? && t.calls[j].stage.Mirroring?
    ensures At(t.single, c.key) == Then(exec, d, Then(exec, c, v)) && At(t.backup, c.key) == v
  {
    assert PairRun(exec, s, [], s, i, j, c.key);
    hide Mutates, PairRun, Next;
    events, t := PairThen(exec, s, [], s, PrimaryAnswers(i), i, j, c.key);
    events, t := PairThen(exec, s, events, t, PrimaryAnswers(j), i, j, c.key);
  }

  lemma PairThen(exec: (Command, Value) -> Effect, s: State, events: seq<Event>, m: State, e: Event, i: nat, j: nat, key: string)
    returns (more: seq<Event>, t: State)
    requires PairRun(exec, s, events, m, i, j, key) && Possible(m, e) && !e.Begin? && e.call in {i, j}
    requires e.call < |m.calls| && m.calls[e.call].command.key == key
    ensures PairRun(exec, s, more, t, i, j, key) && |t.calls| == |m.calls| && t.calls[e.call].command == m.calls[e.call].command
    ensures ValuesAt(t, key) == Moves(exec, m.calls[e.call].command, e, ValuesAt(m, key))
    ensures Advances(m.calls[e.call].command, e, StandingOf(m.calls[e.call].stage), StandingOf(t.calls[e.call].stage))
    ensures forall n :: 0 <= n < |m.calls| && n != e.call ==> t.calls[n] == m.calls[n]
  {
    hide PairRun, Next, Mutates;
    PairRunExtends(exec, s, events, m, e, i, j, key);
    CallMoves(exec, m, e, e.call);
    more, t := events + [e], Next(exec, m, e);
  }

  // ---- Runs that show it ----

  /** A store that only knows `SET key value NX`. */
  function LockExec(c: Command, v: Value): Effect {
    if c.name == "set" && c.args != [] && v.Absent? then Effect(Text(c.args[0]), "OK") else Effect(v, "nil")
  }

  lemma {:induction false} RunExtends(exec: (Command, Value) -> Effect, s: State, events: seq<Event>, m: State, e: Event)
    requires Run(exec, s, events, m) && Possible(m, e)
    ensures Run(exec, s, events + [e], Next(exec, m, e))
    decreases |events|
  {
    hide Next, Possible;
    if events == [] {
      assert [e][1..] == [];
      assert Run(exec, Next(exec, m, e), [e][1..], Next(exec, m, e));
      assert events + [e] == [e];
    } else {
      RunExtends(exec, Next(exec, s, events[0]), events[1..], m, e);
      assert (events + [e])[1..] == events[1..] + [e];
    }
  }

  /** On one store at most one of two such calls wins the lock. */
  lemma OneStoreHasOneWinner(store: Store, c: Command, d: Command)
    requires c.key == d.key
    ensures !(Reply(LockExec, store, c) == "OK" && Reply(LockExec, Applied(LockExec, store, c), d) == "OK")
  {
  }

  lemma Step(s: State, events: seq<Event>, m: State, e: Event) returns (more: seq<Event>, t: State)
    requires Run(LockExec, s, events, m) && Possible(m, e)
    ensures t == Next(LockExec, m, e) && more == events + [e] && Run(LockExec, s, more, t)
  {
    RunExtends(LockExec, s, events, m, e);
    more, t := events + [e], Next(LockExec, m, e);
  }

  /** A call reads no marker and goes to the primary. */
  lemma GoesToPrimary(s: State, events: seq<Event>, m: State, process: nat, c: Command) returns (more: seq<Event>, t: State)
    requires Run(LockExec, s, events, m) && !m.marker && UnavailableUntil(m, process) <= 1
    ensures Run(LockExec, s, more, t)
    ensures t == m.(calls := m.calls + [Call(process, c, OnPrimary)])
  {
    hide Run;
    var n := |m.calls|;
    more, t := Step(s, events, m, Begin(process, c, 1, 1));
    more, t := Step(s, more, t, ReadMarker(n));
    more, t := Step(s, more, t, Choose(n, 1));
    assert t.calls == m.calls + [Call(process, c, OnPrimary)];
  }

  /** A call on the primary fails without effect and raises the local flag of its process. */
  lemma FailsAndFlags(s: State, events: seq<Event>, m: State, call: nat) returns (more: seq<Event>, t: State)
    requires Run(LockExec, s, events, m) && InStage(m, call, OnPrimary)
    ensures Run(LockExec, s, more, t)
    ensures t == Moved(m, call, Promoting).(unavailableUntil := m.unavailableUntil[m.calls[call].process := 1 + COOLDOWN])
  {
    hide Run;
    more, t := Step(s, events, m, PrimaryFails(call, false));
    more, t := Step(s, more, t, SetLocalFlag(call, 1));
    assert t.calls == Moved(m, call, Promoting).calls;
  }

  /** A call wins the lock on the primary and repeats the command on the backup. */
  lemma WinsOnPrimary(s: State, events: seq<Event>, m: State, call: nat) returns (more: seq<Event>, t: State)
    requires Run(LockExec, s, events, m) && InStage(m, call, OnPrimary)
    requires var c := m.calls[call].command; c.name == "set" && c.args != [] && At(m.primary, c.key).Absent?
    ensures Run(LockExec, s, more, t)
    ensures |t.calls| == |m.calls| && t.calls[call].command == m.calls[call].command
    ensures events <= more && t.calls[call].process == m.calls[call].process
    ensures t.calls[call].stage.Done? && t.calls[call].stage.reply == "OK"
    ensures forall i :: 0 <= i < |m.calls| && i != call ==> t.calls[i] == m.calls[i]
  {
    hide Run;
    more, t := Step(s, events, m, PrimaryAnswers(call));
    assert Mutates(m.calls[call].command);
    more, t := Step(s, more, t, Mirror(call));
  }

  lemma WinsOnBackup(s: State, events: seq<Event>, m: State, call: nat) returns (more: seq<Event>, t: State)
    requires Run(LockExec, s, events, m) && InStage(m, call, OnBackup)
    requires var c := m.calls[call].command; c.name == "set" && c.args != [] && At(m.backup, c.key).Absent?
    ensures Run(LockExec, s, more, t)
    ensures |t.calls| == |m.calls| && t.calls[call].command == m.calls[call].command
    ensures events <= more && t.calls[call].process == m.calls[call].process
    ensures t.calls[call].stage.Done? && t.calls[call].stage.reply == "OK"
    ensures forall i :: 0 <= i < |m.calls| && i != call ==> t.calls[i] == m.calls[i]
    ensures t.primary == m.primary && t.marker == m.marker && t.unavailableUntil == m.unavailableUntil
  {
    hide Run;
    more, t := Step(s, events, m, BackupAnswers(call));
  }

  /** When two calls on one key overlap and one of them fails over, both can win the same lock. */
  lemma OverlappingCallsBothWin() returns (events: seq<Event>, t: State)
    ensures Run(LockExec, Start(map[]), events, t)
    ensures |t.calls| == 2 && t.calls[0].command.key == t.calls[1].command.key && t.calls[0].command.name == "set"
    ensures t.calls[0].stage.Done? && t.calls[0].stage.reply == "OK" && t.calls[1].stage.Done? && t.calls[1].stage.reply == "OK"
  {
    var c, d := Command("set", "lock", ["a"]), Command("set", "lock", ["b"]);
    var s := Start(map[]);
    assert Run(LockExec, s, [], s);
    hide Run, Next, LockExec;
    events, t := GoesToPrimary(s, [], s, 0, c);
    events, t := GoesToPrimary(s, events, t, 1, d);
    events, t := FailsAndFlags(s, events, t, 1);
    var m := t;
    events, t := Step(s, events, t, SetMarker(1));
    assert t == Moved(m, 1, OnBackup).(marker := true) by { MarkerIsSet(m); }
    events, t := WinsOnBackup(s, events, t, 1);
    events, t := WinsOnPrimary(s, events, t, 0);
  }

  lemma MarkerIsSet(m: State)
    requires InStage(m, 1, Promoting)
    ensures Next(LockExec, m, SetMarker(1)) == Moved(m, 1, OnBackup).(marker := true)
  {
  }

  /** When a process routes by its own flag before the shared marker is written, two calls on one key that do not
      overlap can both win the same lock: the second begins after the first has finished. */
  lemma UnwrittenMarkerBothWin() returns (before: seq<Event>, m: State, after: seq<Event>, t: State)
    ensures Run(LockExec, Start(map[]), before, m) && Run(LockExec, m, after, t)
    ensures |m.calls| == 2 && m.calls[1].stage.Done? && m.calls[1].stage.reply == "OK" && m.calls[1].command.key == "lock"
    ensures |t.calls| == 3 && t.calls[2].stage.Done? && t.calls[2].stage.reply == "OK" && t.calls[2].command.key == "lock"
    ensures t.calls[1] == m.calls[1]
  {
    before, m := FlagWithoutMarker();
    assert Run(LockExec, m, [], m);
    hide Run, Next, LockExec;
    after, t := GoesToPrimary(m, [], m, 1, Command("set", "lock", ["b"]));
    after, t := WinsOnPrimary(m, after, t, 2);
  }

  lemma FlagWithoutMarker() returns (events: seq<Event>, t: State)
    ensures Run(LockExec, Start(map[]), events, t)
    ensures t.primary == map[] && !t.marker && t.unavailableUntil == map[0 := 1 + COOLDOWN] && |t.calls| == 2
    ensures t.calls[1].stage.Done? && t.calls[1].stage.reply == "OK" && t.calls[1].command == Command("set", "lock", ["a"])
  {
    var s := Start(map[]);
    assert Run(LockExec, s, [], s);
    hide Run, LockExec;
    events, t := GoesToPrimary(s, [], s, 0, Command("set", "other", ["a"]));
    events, t := FailsAndFlags(s, events, t, 0);
    events, t := Step(s, events, t, Begin(0, Command("set", "lock", ["a"]), 1, 1));
    events, t := WinsOnBackup(s, events, t, 1);
  }

  /** When the flag of a process runs out between the two readings, two calls on one key that do not overlap can both win
      the same lock although the marker is set and every earlier call has finished. */
  lemma RunOutFlagBothWin() returns (before: seq<Event>, m: State, after: seq<Event>, t: State)
    ensures Run(LockExec, Start(map[]), before, m) && Run(LockExec, m, after, t)
    ensures m.marker && |m.calls| == 1 && after != [] && after[0].Begin? && FlagRunsOut(m, 0, after[0].now, after[0].later)
    ensures m.calls[0].stage.Done? && m.calls[0].stage.reply == "OK" && m.calls[0].command.key == "lock"
    ensures |t.calls| == 2 && t.calls[1].stage.Done? && t.calls[1].stage.reply == "OK" && t.calls[1].command.key == "lock"
    ensures t.calls[0] == m.calls[0] && t.calls[1].process == m.calls[0].process == 0
  {
    before, m := FailedOver();
    assert Run(LockExec, m, [], m);
    hide Run, LockExec;
    var e := Begin(0, Command("set", "lock", ["b"]), COOLDOWN, COOLDOWN + 1);
    after, t := Step(m, [], m, e);
    assert t.calls == m.calls + [Call(0, e.command, OnPrimary)];
    var rest, u := WinsOnPrimary(m, after, t, 1);
    assert rest[0] == e;
    after, t := rest, u;
  }

  /** Process 0 finds the primary broken and wins the lock on the backup. */
  lemma FailedOver() returns (events: seq<Event>, t: State)
    ensures Run(LockExec, Start(map[]), events, t)
    ensures t.marker && t.primary == map[] && t.unavailableUntil == map[0 := 1 + COOLDOWN] && |t.calls| == 1
    ensures t.calls[0].stage.Done? && t.calls[0].stage.reply == "OK" && t.calls[0].command == Command("set", "lock", ["a"])
    ensures t.calls[0].process == 0
  {
    var s := Start(map[]);
    assert Run(LockExec, s, [], s);
    hide Run, LockExec;
    events, t := GoesToPrimary(s, [], s, 0, Command("set", "lock", ["a"]));
    events, t := FailsAndFlags(s, events, t, 0);
    events, t := Step(s, events, t, SetMarker(0));
    events, t := WinsOnBackup(s, events, t, 0);
  }}
