/** The primary/backup client as a protocol: any number of calls interleave one remote command at a time, and the
    primary may fail with or without having applied the command. The field `single` is a store that runs beside them;
    each call is executed against it once, at the command that decides the reply. */
module FailoverProtocol {
  import opened RedisStore

  /** Where a call of `callRedis` stands. */
  datatype Stage =
    | Asking
    | Asked(seen: bool)
    | OnPrimary
    | Mirroring(reply: string, expected: string)
    | Failed
    | Promoting
    | OnBackup
    | Done(reply: string, expected: string)

  datatype Call = Call(process: nat, command: Command, stage: Stage)

  datatype State = State(primary: Store, backup: Store, marker: bool, unavailableUntil: map<nat, int>, calls: seq<Call>, single: Store)

  datatype Event =
    | Begin(process: nat, command: Command, now: nat, later: nat)
    | ReadMarker(call: nat)
    | Choose(call: nat, now: nat)
    | PrimaryAnswers(call: nat)
    | PrimaryFails(call: nat, applied: bool)
    | SetLocalFlag(call: nat, now: nat)
    | SetMarker(call: nat)
    | BackupAnswers(call: nat)
    | Mirror(call: nat)

  /** The configured cooldown is at least one minute. */
  const COOLDOWN := 600_000

  function UnavailableUntil(s: State, process: nat): int {
    if process in s.unavailableUntil then s.unavailableUntil[process] else 0
  }

  predicate InStage(s: State, call: nat, stage: Stage) {
    call < |s.calls| && s.calls[call].stage == stage
  }

  /** What the code lets happen next. */
  predicate Possible(s: State, e: Event) {
    match e
    case Begin(_, _, now, later) => now <= later
    case ReadMarker(call) => InStage(s, call, Asking)
    case Choose(call, _) => call < |s.calls| && s.calls[call].stage.Asked?
    case PrimaryAnswers(call) => InStage(s, call, OnPrimary)
    case PrimaryFails(call, _) => InStage(s, call, OnPrimary)
    case SetLocalFlag(call, _) => InStage(s, call, Failed)
    case SetMarker(call) => InStage(s, call, Promoting)
    case BackupAnswers(call) => InStage(s, call, OnBackup)
    case Mirror(call) => call < |s.calls| && s.calls[call].stage.Mirroring?
  }

  function Moved(s: State, call: nat, stage: Stage): State
    requires call < |s.calls|
  {
    s.(calls := s.calls[call := s.calls[call].(stage := stage)])
  }

  /** A call whose flag is down at the first reading asks for the marker; otherwise the second reading chooses the side. */
  function FirstStage(unavailableUntil: int, now: nat, later: nat): Stage {
    if unavailableUntil <= now then Asking
    else if ChoosesBackup(unavailableUntil, false, now, later) then OnBackup
    else OnPrimary
  }

  function Next(exec: (Command, Value) -> Effect, s: State, e: Event): State
    requires Possible(s, e)
  {
    match e
    case Begin(process, command, now, later) =>
      s.(calls := s.calls + [Call(process, command, FirstStage(UnavailableUntil(s, process), now, later))])
    case ReadMarker(call) => Moved(s, call, Asked(s.marker))
    case Choose(call, now) =>
      var backup := UseBackup(UnavailableUntil(s, s.calls[call].process), s.calls[call].stage.seen, now);
      Moved(s, call, if backup then OnBackup else OnPrimary)
    case PrimaryAnswers(call) =>
      var c := s.calls[call].command;
      var reply, expected := Reply(exec, s.primary, c), Reply(exec, s.single, c);
      Moved(s, call, if Mutates(c) then Mirroring(reply, expected) else Done(reply, expected))
        .(primary := Applied(exec, s.primary, c), single := Applied(exec, s.single, c),
          unavailableUntil := s.unavailableUntil[s.calls[call].process := 0])
    case PrimaryFails(call, applied) =>
      Moved(s, call, Failed).(primary := if applied then Applied(exec, s.primary, s.calls[call].command) else s.primary)
    case SetLocalFlag(call, now) =>
      Moved(s, call, Promoting).(unavailableUntil := s.unavailableUntil[s.calls[call].process := now + COOLDOWN])
    case SetMarker(call) => Moved(s, call, OnBackup).(marker := true)
    case BackupAnswers(call) =>
      var c := s.calls[call].command;
      Moved(s, call, Done(Reply(exec, s.backup, c), Reply(exec, s.single, c)))
        .(backup := Applied(exec, s.backup, c), single := Applied(exec, s.single, c))
    case Mirror(call) =>
      var stage := s.calls[call].stage;
      Moved(s, call, Done(stage.reply, stage.expected)).(backup := Applied(exec, s.backup, s.calls[call].command))
  }

  predicate InFlight(c: Call, key: string) {
    !c.stage.Done? && c.command.key == key
  }

  /** Some call in flight may change the value at the key. */
  predicate Writing(s: State, key: string) {
    exists i :: 0 <= i < |s.calls| && InFlight(s.calls[i], key) && Mutates(s.calls[i].command)
  }

  /** A call in flight works on the key of the command, and one of the two may change the value there. */
  predicate Clashes(s: State, c: Command) {
    exists i :: 0 <= i < |s.calls| && InFlight(s.calls[i], c.key) && (Mutates(c) || Mutates(s.calls[i].command))
  }

  /** The local flag of the process runs out between the two readings of the clock. */
  predicate FlagRunsOut(s: State, process: nat, now: nat, later: nat) {
    RunsOut(UnavailableUntil(s, process), now, later)
  }

  /** What the callers must see to: two calls on one key do not overlap unless both only read, a process does not route by
      its own flag before it has written the shared marker, and its flag does not run out between the two readings of the
      clock. */
  predicate Disciplined(s: State, e: Event) {
    match e
    case Begin(process, command, now, later) =>
      && !Clashes(s, command)
      && (UnavailableUntil(s, process) > now ==> s.marker)
      && !FlagRunsOut(s, process, now, later)
    case Choose(call, now) =>
      call < |s.calls| ==> UnavailableUntil(s, s.calls[call].process) > now ==> s.marker
    case _ => true
  }

  function Start(store: Store): State {
    State(store, store, false, map[], [], store)
  }

  ghost predicate Run(exec: (Command, Value) -> Effect, s: State, events: seq<Event>, t: State)
    decreases |events|
  {
    if events == [] then s == t
    else Possible(s, events[0]) && Run(exec, Next(exec, s, events[0]), events[1..], t)
  }

  ghost predicate DisciplinedRun(exec: (Command, Value) -> Effect, s: State, events: seq<Event>, t: State)
    decreases |events|
  {
    if events == [] then s == t
    else Possible(s, events[0]) && Disciplined(s, events[0]) && DisciplinedRun(exec, Next(exec, s, events[0]), events[1..], t)
  }

  // ---- The invariant ----

  predicate Synced(s: State, key: string) {
    At(s.backup, key) == At(s.single, key)
  }

  predicate Fresh(s: State, key: string) {
    At(s.primary, key) == At(s.single, key)
  }

  /** What holds of the stores at the key of a call, stage by stage. */
  predicate CallOk(exec: (Command, Value) -> Effect, s: State, c: Call) {
    var key := c.command.key;
    match c.stage
    case Asking => Synced(s, key) && (Fresh(s, key) || s.marker)
    case Asked(seen) => Synced(s, key) && (Fresh(s, key) || (seen && s.marker)) && (seen ==> s.marker)
    case OnPrimary => Synced(s, key) && Fresh(s, key)
    case Mirroring(reply, expected) =>
      reply == expected && Fresh(s, key) && exec(c.command, At(s.backup, key)).value == At(s.single, key)
    case Failed => Synced(s, key)
    case Promoting => Synced(s, key)
    case OnBackup => Synced(s, key) && s.marker
    case Done(reply, expected) => reply == expected
  }

  predicate IdleOk(s: State, key: string) {
    Synced(s, key) && (Fresh(s, key) || s.marker)
  }

  ghost predicate Apart(calls: seq<Call>) {
    forall i, j :: 0 <= i < j < |calls| && BothInFlight(calls[i], calls[j]) ==> !Mutates(calls[i].command) && !Mutates(calls[j].command)
  }

  predicate BothInFlight(c: Call, d: Call) {
    !c.stage.Done? && !d.stage.Done? && c.command.key == d.command.key
  }

  ghost predicate Inv(exec: (Command, Value) -> Effect, s: State) {
    && Apart(s.calls)
    && (forall i :: 0 <= i < |s.calls| ==> CallOk(exec, s, s.calls[i]))
    && (forall k :: !Writing(s, k) ==> IdleOk(s, k))
  }

  // ---- One call moves, at its own key ----

  predicate SameAt(s: State, t: State, key: string) {
    At(t.primary, key) == At(s.primary, key) && At(t.backup, key) == At(s.backup, key) && At(t.single, key) == At(s.single, key)
  }

  /** Everything but one call and its key stays, except that the marker may be set; a reading call leaves its key too. */
  ghost predicate OnlyAt(s: State, t: State, call: nat) {
    && |t.calls| == |s.calls| && call < |s.calls| && (s.marker ==> t.marker)
    && (forall i :: 0 <= i < |s.calls| && i != call ==> t.calls[i] == s.calls[i])
    && t.calls[call].command == s.calls[call].command
    && (forall k :: k != s.calls[call].command.key ==> SameAt(s, t, k))
    && (!Mutates(s.calls[call].command) ==> SameAt(s, t, s.calls[call].command.key))
  }

  lemma StaysWriting(s: State, t: State, call: nat, key: string)
    requires OnlyAt(s, t, call) && Writing(s, key)
    ensures Writing(t, key) || (key == s.calls[call].command.key && t.calls[call].stage.Done?)
  {
    hide Mutates;
    var i :| 0 <= i < |s.calls| && InFlight(s.calls[i], key) && Mutates(s.calls[i].command);
    assert i != call ==> t.calls[i] == s.calls[i];
  }

  lemma OthersStayOk(exec: (Command, Value) -> Effect, s: State, t: State, call: nat)
    requires Inv(exec, s) && OnlyAt(s, t, call) && !s.calls[call].stage.Done?
    requires CallOk(exec, t, t.calls[call])
    requires t.calls[call].stage.Done? ==> IdleOk(t, t.calls[call].command.key)
    ensures Inv(exec, t)
  {
    hide Mutates;
    forall i | 0 <= i < |t.calls| ensures CallOk(exec, t, t.calls[i]) {
      if i != call { OtherCallOk(exec, s, t, call, i); }
    }
    forall i, j | 0 <= i < j < |t.calls| && BothInFlight(t.calls[i], t.calls[j])
      ensures !Mutates(t.calls[i].command) && !Mutates(t.calls[j].command)
    {
      assert BothInFlight(s.calls[i], s.calls[j]);
    }
    forall k | !Writing(t, k) ensures IdleOk(t, k) { IdleStays(exec, s, t, call, k); }
  }

  lemma IdleStays(exec: (Command, Value) -> Effect, s: State, t: State, call: nat, k: string)
    requires Inv(exec, s) && OnlyAt(s, t, call) && !s.calls[call].stage.Done? && !Writing(t, k)
    requires t.calls[call].stage.Done? ==> IdleOk(t, t.calls[call].command.key)
    ensures IdleOk(t, k)
  {
    hide Mutates, Apart, CallOk;
    if Writing(s, k) {
      StaysWriting(s, t, call, k);
    } else {
      assert IdleOk(s, k);
      if k == s.calls[call].command.key && Mutates(s.calls[call].command) {
        assert InFlight(s.calls[call], k);
      } else {
        assert SameAt(s, t, k);
      }
    }
  }

  lemma OtherCallOk(exec: (Command, Value) -> Effect, s: State, t: State, call: nat, i: nat)
    requires Apart(s.calls) && i < |s.calls| && CallOk(exec, s, s.calls[i])
    requires OnlyAt(s, t, call) && !s.calls[call].stage.Done? && i != call
    ensures CallOk(exec, t, t.calls[i])
  {
    hide Mutates;
    if !s.calls[i].stage.Done? {
      var c, d := s.calls[if i < call then i else call], s.calls[if i < call then call else i];
      if s.calls[i].command.key == s.calls[call].command.key { assert BothInFlight(c, d); }
      assert SameAt(s, t, s.calls[i].command.key);
    }
  }

  lemma BeginKeepsInv(exec: (Command, Value) -> Effect, s: State, e: Event)
    requires ListIsComplete(exec) && Inv(exec, s) && e.Begin? && Possible(s, e) && Disciplined(s, e)
    ensures Inv(exec, Next(exec, s, e))
  {
    hide Inv, Mutates, Clashes, Writing;
    NoWriterThere(exec, s, e.command);
    NewCallKeepsInv(exec, s, Call(e.process, e.command, FirstStage(UnavailableUntil(s, e.process), e.now, e.later)));
  }

  lemma NoWriterThere(exec: (Command, Value) -> Effect, s: State, c: Command)
    requires Inv(exec, s) && !Clashes(s, c)
    ensures !Writing(s, c.key) && IdleOk(s, c.key)
  {
    hide Mutates, CallOk;
  }

  /** A call that clashes with none in flight joins; its own stage has to fit the stores. */
  lemma NewCallKeepsInv(exec: (Command, Value) -> Effect, s: State, c: Call)
    requires Inv(exec, s) && !Clashes(s, c.command) && !c.stage.Done? && CallOk(exec, s, c)
    ensures Inv(exec, s.(calls := s.calls + [c]))
  {
    hide Mutates;
    var t := s.(calls := s.calls + [c]);
    var n := |s.calls|;
    forall i | 0 <= i < |t.calls| ensures CallOk(exec, t, t.calls[i]) {
      if i < n { assert t.calls[i] == s.calls[i]; }
    }
    forall i, j | 0 <= i < j < |t.calls| && BothInFlight(t.calls[i], t.calls[j])
      ensures !Mutates(t.calls[i].command) && !Mutates(t.calls[j].command)
    {
      assert t.calls[i] == s.calls[i];
      if j == n { assert InFlight(s.calls[i], c.command.key); }
    }
    forall k | !Writing(t, k) ensures IdleOk(t, k) { WritingAfterBegin(s, t, k); }
  }

  lemma WritingAfterBegin(s: State, t: State, key: string)
    requires |t.calls| > 0 && s.calls == t.calls[..|t.calls| - 1]
    ensures Writing(s, key) ==> Writing(t, key)
  {
    hide Mutates;
    if Writing(s, key) {
      var i :| 0 <= i < |s.calls| && InFlight(s.calls[i], key) && Mutates(s.calls[i].command);
      assert t.calls[i] == s.calls[i];
    }
  }

  /** A call that begins with the marker set reaches the demoted primary exactly when the flag of its process is up at the
      first reading of the clock and down at the second. */
  lemma ReachesDemotedPrimaryIff(exec: (Command, Value) -> Effect, s: State, e: Event)
    requires e.Begin? && Possible(s, e) && s.marker
    ensures Next(exec, s, e).calls[|s.calls|].stage == OnPrimary <==> FlagRunsOut(s, e.process, e.now, e.later)
  {
  }

  /** Reading the marker, choosing a side, and setting the flag and the marker. */
  lemma RoutingKeepsInv(exec: (Command, Value) -> Effect, s: State, e: Event)
    requires Inv(exec, s) && Possible(s, e) && Disciplined(s, e)
    requires e.ReadMarker? || e.Choose? || e.SetLocalFlag? || e.SetMarker?
    ensures Inv(exec, Next(exec, s, e))
  {
    hide Inv, Mutates;
    var t := Next(exec, s, e);
    assert CallOk(exec, s, s.calls[e.call]) by { CallsAreOk(exec, s, e.call); }
    assert OnlyAt(s, t, e.call);
    OthersStayOk(exec, s, t, e.call);
  }

  lemma CallsAreOk(exec: (Command, Value) -> Effect, s: State, call: nat)
    requires Inv(exec, s) && call < |s.calls|
    ensures CallOk(exec, s, s.calls[call])
  {
  }

  predicate IsCommand(s: State, e: Event) {
    (e.PrimaryAnswers? || e.PrimaryFails? || e.BackupAnswers? || e.Mirror?) && Possible(s, e)
  }

  lemma CommandIsLocal(exec: (Command, Value) -> Effect, s: State, e: Event)
    requires ListIsComplete(exec) && IsCommand(s, e)
    ensures e.call < |s.calls| && !s.calls[e.call].stage.Done? && OnlyAt(s, Next(exec, s, e), e.call)
  {
    hide Mutates, ListIsComplete, Applied, At, Reply;
    var c := s.calls[e.call].command;
    AppliedElsewhere(exec, s.primary, c);
    AppliedElsewhere(exec, s.backup, c);
    AppliedElsewhere(exec, s.single, c);
  }

  lemma AppliedElsewhere(exec: (Command, Value) -> Effect, store: Store, c: Command)
    requires ListIsComplete(exec)
    ensures forall k :: k != c.key ==> At(Applied(exec, store, c), k) == At(store, k)
    ensures !Mutates(c) ==> At(Applied(exec, store, c), c.key) == At(store, c.key)
  {
    hide Mutates;
  }

  predicate CallKept(exec: (Command, Value) -> Effect, t: State, call: nat) {
    && call < |t.calls| && CallOk(exec, t, t.calls[call])
    && (t.calls[call].stage.Done? ==> IdleOk(t, t.calls[call].command.key))
  }

  lemma PrimaryAnswerKeepsCall(exec: (Command, Value) -> Effect, s: State, call: nat)
    requires ListIsComplete(exec) && Possible(s, PrimaryAnswers(call)) && CallOk(exec, s, s.calls[call])
    ensures CallKept(exec, Next(exec, s, PrimaryAnswers(call)), call)
  {
    var c := s.calls[call].command;
    assert !Mutates(c) ==> exec(c, At(s.backup, c.key)).value == At(s.backup, c.key);
    hide Mutates, ListIsComplete;
  }

  lemma CommandKeepsCall(exec: (Command, Value) -> Effect, s: State, e: Event)
    requires ListIsComplete(exec) && IsCommand(s, e) && CallOk(exec, s, s.calls[e.call])
    ensures CallKept(exec, Next(exec, s, e), e.call)
  {
    if e.PrimaryAnswers? {
      PrimaryAnswerKeepsCall(exec, s, e.call);
    } else {
      hide Mutates, ListIsComplete;
    }
  }

  /** The commands on the two stores. */
  lemma CommandsKeepInv(exec: (Command, Value) -> Effect, s: State, e: Event)
    requires ListIsComplete(exec) && Inv(exec, s) && IsCommand(s, e)
    ensures Possible(s, e) && Inv(exec, Next(exec, s, e))
  {
    hide Inv, Next, CallOk, OnlyAt, IdleOk, Mutates, ListIsComplete;
    CommandIsLocal(exec, s, e);
    CallsAreOk(exec, s, e.call);
    CommandKeepsCall(exec, s, e);
    hide Reply, Applied;
    OthersStayOk(exec, s, Next(exec, s, e), e.call);
  }

  lemma StepKeepsInv(exec: (Command, Value) -> Effect, s: State, e: Event)
    requires ListIsComplete(exec) && Inv(exec, s) && Possible(s, e) && Disciplined(s, e)
    ensures Inv(exec, Next(exec, s, e))
  {
    hide Inv, Possible, Disciplined, Next, ListIsComplete;
    if e.Begin? { BeginKeepsInv(exec, s, e); }
    else if e.PrimaryAnswers? || e.PrimaryFails? || e.BackupAnswers? || e.Mirror? { CommandsKeepInv(exec, s, e); }
    else { RoutingKeepsInv(exec, s, e); }
  }

  lemma StartHasInv(exec: (Command, Value) -> Effect, store: Store)
    ensures Inv(exec, Start(store))
  {
  }

  lemma {:induction false} RunKeepsInv(exec: (Command, Value) -> Effect, s: State, events: seq<Event>, t: State)
    requires ListIsComplete(exec) && Inv(exec, s) && DisciplinedRun(exec, s, events, t)
    ensures Inv(exec, t)
    decreases |events|
  {
    hide Inv, Possible, Disciplined, Next, ListIsComplete;
    if events != [] {
      StepKeepsInv(exec, s, events[0]);
      RunKeepsInv(exec, Next(exec, s, events[0]), events[1..], t);
    }
  }

  /** In every disciplined run, whatever fails and whichever side answers, each finished call returned the reply of
      one single store; and a key nobody is writing has that store's value on the side that will answer next. */
  lemma RepliesOfOneStore(exec: (Command, Value) -> Effect, store: Store, events: seq<Event>, t: State)
    requires ListIsComplete(exec) && DisciplinedRun(exec, Start(store), events, t)
    ensures forall i :: 0 <= i < |t.calls| && t.calls[i].stage.Done? ==> t.calls[i].stage.reply == t.calls[i].stage.expected
    ensures forall k :: !Writing(t, k) ==> At(t.backup, k) == At(t.single, k)
    ensures forall k :: !Writing(t, k) && !t.marker ==> At(t.primary, k) == At(t.single, k)
  {
    StartHasInv(exec, store);
    RunKeepsInv(exec, Start(store), events, t);
    forall i | 0 <= i < |t.calls| && t.calls[i].stage.Done? ensures t.calls[i].stage.reply == t.calls[i].stage.expected {
      CallsAreOk(exec, t, i);
    }
    hide Writing;
    forall k | !Writing(t, k) ensures At(t.backup, k) == At(t.single, k) && (!t.marker ==> At(t.primary, k) == At(t.single, k)) {
      assert IdleOk(t, k);
    }
  }

  // ---- Every call reaches the single store once ----

  /** The calls in the order in which their replies were decided. */
  function Decided(events: seq<Event>): seq<nat> {
    if events == [] then []
    else (if events[0].PrimaryAnswers? || events[0].BackupAnswers? then [events[0].call] else []) + Decided(events[1..])
  }

  predicate IsDecided(s: State, call: nat) {
    call < |s.calls| && (s.calls[call].stage.Mirroring? || s.calls[call].stage.Done?)
  }

  lemma StepDecides(exec: (Command, Value) -> Effect, s: State, e: Event, call: nat)
    requires Possible(s, e)
    ensures IsDecided(Next(exec, s, e), call) <==> IsDecided(s, call) || ((e.PrimaryAnswers? || e.BackupAnswers?) && e.call == call)
    ensures (e.PrimaryAnswers? || e.BackupAnswers?) && e.call == call ==> !IsDecided(s, call)
  {
  }

  /** In any run, a call is executed against the single store once if it has been decided, and otherwise never. */
  lemma {:induction false} DecidedOnce(exec: (Command, Value) -> Effect, s: State, events: seq<Event>, t: State, call: nat)
    requires Run(exec, s, events, t)
    ensures IsDecided(s, call) ==> IsDecided(t, call)
    ensures multiset(Decided(events))[call] == if IsDecided(t, call) && !IsDecided(s, call) then 1 else 0
    decreases |events|
  {
    hide Next, Possible, IsDecided;
    if events != [] {
      StepDecides(exec, s, events[0], call);
      DecidedOnce(exec, Next(exec, s, events[0]), events[1..], t, call);
    }
  }
}
