/** The client's code and the protocol tell the same story, and what one call leaves behind is written out. */
module FailoverCalls {
  import opened RedisStore
  import FP = FailoverProtocol
  import opened RedisClient

  // ---- One call of the code ----

  /** The backup serves a call whose local flag is still up at the second reading of the clock, or was down at the first one
      while the shared marker was set. */
  predicate ServedByBackup(flag: int, marker: bool, now: int, later: int) {
    later < flag || (marker && flag <= now)
  }

  /** What a call leaves behind. On the backup it touches nothing else. On the primary an answer takes the caller's flag down,
      a command that may write is repeated on the backup; an application error changes nothing; a failure sets the marker,
      raises the caller's flag for ten minutes, and the backup serves the call. */
  lemma CallLeaves(exec: (Command, Value) -> Effect, w: World, r: Request)
    requires ReadableBy(w, r)
    ensures
      var (after, answer) := Called(exec, w, r);
      var onBackup := ServedByBackup(w.flags[r.client], w.marker, r.now, r.later);
      var breaks := !onBackup && r.weather.Breaks?;
      && (answer == Thrown <==> !onBackup && r.weather.Refuses?)
      && (answer != Thrown ==>
            answer == Replied(if onBackup || breaks then exec(r.command, At(w.backup, r.command.key)).reply
                              else exec(r.command, At(w.primary, r.command.key)).reply))
      && (forall i :: 0 <= i < |w.flags| && i != r.client ==> after.flags[i] == w.flags[i]) && |after.flags| == |w.flags|
      && after.flags[r.client] == (if breaks then r.failedAt + 600_000 else if !onBackup && r.weather.Answers? then 0 else w.flags[r.client])
      && (after.marker <==> w.marker || breaks)
      && (forall k :: At(after.primary, k) == if k == r.command.key && !onBackup && (r.weather.Answers? || r.weather == Breaks(true))
                                              then exec(r.command, At(w.primary, k)).value else At(w.primary, k))
      && (forall k :: At(after.backup, k) == if k == r.command.key && (onBackup || breaks || (r.weather.Answers? && Mutates(r.command)))
                                             then exec(r.command, At(w.backup, k)).value else At(w.backup, k))
  {
    hide Mutates;
  }

  /** The commands that are repeated on the backup. */
  lemma RepeatedCommands(c: Command)
    ensures Mutates(c) <==> c.name in [
      "append", "set", "setbit", "setex", "setnx", "mset", "getdel", "del", "unlink", "rename", "renamenx", "eval",
      "incr", "incrby", "incrbyfloat", "decr", "decrby", "expire", "expireat", "pexpire", "pexpireat", "persist",
      "hset", "hdel", "hincrby", "hincrbyfloat", "lpush", "rpush", "lpop", "rpop", "lrem", "lset", "ltrim",
      "sadd", "srem", "zadd", "zrem", "zincrby", "flushdb", "flushall"]
  {
  }

  // ---- The same call as steps of the protocol ----

  /** The steps are a run, and a disciplined one if that is asked for. */
  ghost predicate Leads(exec: (Command, Value) -> Effect, s: FP.State, events: seq<FP.Event>, t: FP.State, disciplined: bool) {
    FP.Run(exec, s, events, t) && (disciplined ==> FP.DisciplinedRun(exec, s, events, t))
  }

  lemma {:induction false} GoesOn(exec: (Command, Value) -> Effect, s: FP.State, events: seq<FP.Event>, t: FP.State, e: FP.Event,
                                  disciplined: bool)
    requires Leads(exec, s, events, t, disciplined) && FP.Possible(t, e) && (disciplined ==> FP.Disciplined(t, e))
    ensures Leads(exec, s, events + [e], FP.Next(exec, t, e), disciplined)
    decreases |events|
  {
    hide FP.Next, FP.Possible, FP.Disciplined;
    if events == [] {
      assert events + [e] == [e] && [e][1..] == [];
      assert FP.Run(exec, FP.Next(exec, t, e), [], FP.Next(exec, t, e));
      assert FP.DisciplinedRun(exec, FP.Next(exec, t, e), [], FP.Next(exec, t, e));
    } else {
      assert (events + [e])[1..] == events[1..] + [e];
      GoesOn(exec, FP.Next(exec, s, events[0]), events[1..], t, e, disciplined);
    }
  }

  /** One process of the protocol's state, as the client sees it. */
  function Seen(s: FP.State, process: nat): World {
    World(s.primary, s.backup, s.marker, [FP.UnavailableUntil(s, process)])
  }

  /** At the start both databases are the one store, nobody has seen a failure, and nothing has been called. */
  lemma StartIs(store: Store, process: nat)
    ensures Seen(FP.Start(store), process) == World(store, store, false, [0])
    ensures FP.Start(store).calls == [] && FP.Start(store).single == store
  {
  }

  /** The call has ended with this answer, beside the single store's reply, and nothing else has changed. */
  ghost predicate Ended(exec: (Command, Value) -> Effect, s: FP.State, t: FP.State, process: nat, r: Request) {
    && ReadableBy(Seen(s, process), r)
    && |t.calls| > 0 && t.calls == s.calls + [FP.Call(process, r.command, t.calls[|t.calls| - 1].stage)]
    && t.calls[|t.calls| - 1].stage.Done?
    && t.calls[|t.calls| - 1].stage.expected == Reply(exec, s.single, r.command)
    && t.single == Applied(exec, s.single, r.command)
    && (Seen(t, process), Replied(t.calls[|t.calls| - 1].stage.reply)) == Called(exec, Seen(s, process), r)
    && forall p :: p != process ==> FP.UnavailableUntil(t, p) == FP.UnavailableUntil(s, p)
  }

  /** The call stands before its command, on the side that the code chooses. */
  lemma SideIsChosen(exec: (Command, Value) -> Effect, s: FP.State, process: nat, r: Request, disciplined: bool)
    returns (events: seq<FP.Event>, t: FP.State)
    requires ReadableBy(Seen(s, process), r) && (disciplined ==> Undisturbed(s, process, r))
    ensures Leads(exec, s, events, t, disciplined)
    ensures
      var onBackup := ServedByBackup(FP.UnavailableUntil(s, process), s.marker, r.now, r.later);
      t == s.(calls := s.calls + [FP.Call(process, r.command, if onBackup then FP.OnBackup else FP.OnPrimary)])
  {
    hide Leads, FP.Clashes;
    var call := |s.calls|;
    events, t := [], s;
    NoSteps(exec, s, disciplined);
    if disciplined { NoClash(s, r.command); }
    GoesOn(exec, s, events, t, FP.Begin(process, r.command, r.now, r.later), disciplined);
    events, t := events + [FP.Begin(process, r.command, r.now, r.later)], FP.Next(exec, t, FP.Begin(process, r.command, r.now, r.later));
    if FP.UnavailableUntil(s, process) <= r.now {
      GoesOn(exec, s, events, t, FP.ReadMarker(call), disciplined);
      events, t := events + [FP.ReadMarker(call)], FP.Next(exec, t, FP.ReadMarker(call));
      GoesOn(exec, s, events, t, FP.Choose(call, r.later), disciplined);
      events, t := events + [FP.Choose(call, r.later)], FP.Next(exec, t, FP.Choose(call, r.later));
    }
    assert t.calls == s.calls + [t.calls[call]];
  }

  lemma NoSteps(exec: (Command, Value) -> Effect, s: FP.State, disciplined: bool)
    ensures Leads(exec, s, [], s, disciplined)
  {
  }

  /** No unfinished call has the command's key, unless both only read; the caller's flag is not ahead of the marker; and it
      does not run out between the readings. */
  ghost predicate Undisturbed(s: FP.State, process: nat, r: Request) {
    var flag := FP.UnavailableUntil(s, process);
    && (forall i :: 0 <= i < |s.calls| && !s.calls[i].stage.Done? && s.calls[i].command.key == r.command.key ==>
          !Mutates(r.command) && !Mutates(s.calls[i].command))
    && (flag > r.now ==> s.marker && flag > r.later)
  }

  lemma NoClash(s: FP.State, c: Command)
    requires forall i :: 0 <= i < |s.calls| && !s.calls[i].stage.Done? && s.calls[i].command.key == c.key ==>
      !Mutates(c) && !Mutates(s.calls[i].command)
    ensures !FP.Clashes(s, c)
  {
  }

  // The command on its side: the backup answers, the primary answers, or the primary fails.

  lemma BackupServes(exec: (Command, Value) -> Effect, s: FP.State, process: nat, r: Request, disciplined: bool)
    returns (events: seq<FP.Event>, t: FP.State)
    requires ReadableBy(Seen(s, process), r) && ServedByBackup(FP.UnavailableUntil(s, process), s.marker, r.now, r.later)
    ensures Leads(exec, s.(calls := s.calls + [FP.Call(process, r.command, FP.OnBackup)]), events, t, disciplined) && Ended(exec, s, t, process, r)
  {
    hide Leads, Applied, Reply, Mutates;
    var call := |s.calls|;
    var ready := s.(calls := s.calls + [FP.Call(process, r.command, FP.OnBackup)]);
    events, t := [], ready;
    NoSteps(exec, ready, disciplined);
    GoesOn(exec, ready, events, t, FP.BackupAnswers(call), disciplined);
    events, t := events + [FP.BackupAnswers(call)], FP.Next(exec, t, FP.BackupAnswers(call));
    assert t.calls == s.calls + [t.calls[call]];
    assert Seen(t, process).flags == Seen(s, process).flags[0 := FP.UnavailableUntil(t, process)];
  }

  lemma PrimaryServes(exec: (Command, Value) -> Effect, s: FP.State, process: nat, r: Request, disciplined: bool)
    returns (events: seq<FP.Event>, t: FP.State)
    requires ReadableBy(Seen(s, process), r) && !ServedByBackup(FP.UnavailableUntil(s, process), s.marker, r.now, r.later) && r.weather.Answers?
    ensures Leads(exec, s.(calls := s.calls + [FP.Call(process, r.command, FP.OnPrimary)]), events, t, disciplined) && Ended(exec, s, t, process, r)
  {
    hide Leads, Applied, Reply, Mutates;
    var call := |s.calls|;
    var ready := s.(calls := s.calls + [FP.Call(process, r.command, FP.OnPrimary)]);
    events, t := [], ready;
    NoSteps(exec, ready, disciplined);
    GoesOn(exec, ready, events, t, FP.PrimaryAnswers(call), disciplined);
    events, t := events + [FP.PrimaryAnswers(call)], FP.Next(exec, t, FP.PrimaryAnswers(call));
    if Mutates(r.command) {
      GoesOn(exec, ready, events, t, FP.Mirror(call), disciplined);
      events, t := events + [FP.Mirror(call)], FP.Next(exec, t, FP.Mirror(call));
    }
    assert t.calls == s.calls + [t.calls[call]];
    assert Seen(t, process).flags == Seen(s, process).flags[0 := FP.UnavailableUntil(t, process)];
  }

  lemma PrimaryBreaks(exec: (Command, Value) -> Effect, s: FP.State, process: nat, r: Request, disciplined: bool)
    returns (events: seq<FP.Event>, t: FP.State)
    requires ReadableBy(Seen(s, process), r) && !ServedByBackup(FP.UnavailableUntil(s, process), s.marker, r.now, r.later) && r.weather.Breaks?
    ensures Leads(exec, s.(calls := s.calls + [FP.Call(process, r.command, FP.OnPrimary)]), events, t, disciplined) && Ended(exec, s, t, process, r)
  {
    hide Leads, Applied, Reply, Mutates;
    var call := |s.calls|;
    var ready := s.(calls := s.calls + [FP.Call(process, r.command, FP.OnPrimary)]);
    events, t := [], ready;
    NoSteps(exec, ready, disciplined);
    GoesOn(exec, ready, events, t, FP.PrimaryFails(call, r.weather.applied), disciplined);
    events, t := events + [FP.PrimaryFails(call, r.weather.applied)], FP.Next(exec, t, FP.PrimaryFails(call, r.weather.applied));
    GoesOn(exec, ready, events, t, FP.SetLocalFlag(call, r.failedAt), disciplined);
    events, t := events + [FP.SetLocalFlag(call, r.failedAt)], FP.Next(exec, t, FP.SetLocalFlag(call, r.failedAt));
    GoesOn(exec, ready, events, t, FP.SetMarker(call), disciplined);
    events, t := events + [FP.SetMarker(call)], FP.Next(exec, t, FP.SetMarker(call));
    GoesOn(exec, ready, events, t, FP.BackupAnswers(call), disciplined);
    events, t := events + [FP.BackupAnswers(call)], FP.Next(exec, t, FP.BackupAnswers(call));
    assert t.calls == s.calls + [t.calls[call]];
    assert Seen(t, process).flags == Seen(s, process).flags[0 := FP.UnavailableUntil(t, process)];
  }

  lemma {:induction false} RunsJoin(exec: (Command, Value) -> Effect, s: FP.State, a: seq<FP.Event>, m: FP.State,
                                    b: seq<FP.Event>, t: FP.State, disciplined: bool)
    requires Leads(exec, s, a, m, disciplined) && Leads(exec, m, b, t, disciplined)
    ensures Leads(exec, s, a + b, t, disciplined)
    decreases |a|
  {
    hide FP.Next, FP.Possible, FP.Disciplined;
    if a == [] {
      assert a + b == b;
    } else {
      assert (a + b)[1..] == a[1..] + b;
      RunsJoin(exec, FP.Next(exec, s, a[0]), a[1..], m, b, t, disciplined);
    }
  }

  /** From every state, a call that no other call interrupts can run through the protocol, and ends with the answer, the
      databases, the marker and the flag that the code's call ends with. The run is disciplined if nobody disturbs it. */
  lemma CodeIsARun(exec: (Command, Value) -> Effect, s: FP.State, process: nat, r: Request)
    returns (events: seq<FP.Event>, t: FP.State)
    requires ReadableBy(Seen(s, process), r)
    requires !r.weather.Refuses? || ServedByBackup(FP.UnavailableUntil(s, process), s.marker, r.now, r.later)
    ensures FP.Run(exec, s, events, t) && Ended(exec, s, t, process, r)
    ensures Undisturbed(s, process, r) ==> FP.DisciplinedRun(exec, s, events, t)
  {
    hide FP.Run, FP.DisciplinedRun, Ended, Undisturbed;
    var disciplined := Undisturbed(s, process, r);
    var a, ready := SideIsChosen(exec, s, process, r, disciplined);
    var b;
    if ServedByBackup(FP.UnavailableUntil(s, process), s.marker, r.now, r.later) {
      b, t := BackupServes(exec, s, process, r, disciplined);
    } else if r.weather.Answers? {
      b, t := PrimaryServes(exec, s, process, r, disciplined);
    } else {
      b, t := PrimaryBreaks(exec, s, process, r, disciplined);
    }
    RunsJoin(exec, s, a, ready, b, t, disciplined);
    events := a + b;
  }
}
