/** The primary/backup client, as the code runs it. */
module RedisClient {
  import opened RedisStore

  /** What a call on the primary meets: an answer, an application error, or a failure of transport that may have
      come after the command was applied. */
  datatype Weather = Answers | Refuses | Breaks(applied: bool)

  datatype Answer = Replied(text: string) | Thrown

  const COOLDOWN := 600_000

  /** The two databases, the shared marker kept on the backup, and the local flag of each process. */
  datatype World = World(primary: Store, backup: Store, marker: bool, flags: seq<int>)

  /** One call: the clock is read twice before a side is chosen, and once more when the primary breaks. */
  datatype Request = Request(client: nat, command: Command, now: nat, later: nat, failedAt: nat, weather: Weather)

  predicate ReadableBy(w: World, r: Request) {
    r.client < |w.flags| && r.now <= r.later <= r.failedAt
  }

  /** `callRedis` on values. */
  function Called(exec: (Command, Value) -> Effect, w: World, r: Request): (World, Answer)
    requires ReadableBy(w, r)
  {
    if ChoosesBackup(w.flags[r.client], w.marker, r.now, r.later) then
      (w.(backup := Applied(exec, w.backup, r.command)), Replied(Reply(exec, w.backup, r.command)))
    else
      match r.weather
      case Answers =>
        (w.(primary := Applied(exec, w.primary, r.command),
            backup := if Mutates(r.command) then Applied(exec, w.backup, r.command) else w.backup,
            flags := w.flags[r.client := 0]),
         Replied(Reply(exec, w.primary, r.command)))
      case Refuses => (w, Thrown)
      case Breaks(applied) =>
        (w.(primary := if applied then Applied(exec, w.primary, r.command) else w.primary,
            backup := Applied(exec, w.backup, r.command),
            marker := true,
            flags := w.flags[r.client := r.failedAt + COOLDOWN]),
         Replied(Reply(exec, w.backup, r.command)))
  }

  /** The stores agree unless the backup has been promoted, and a local flag is up only where the marker is. */
  ghost predicate Coherent(w: World) {
    && (w.marker || SameStore(w.primary, w.backup))
    && (forall i :: 0 <= i < |w.flags| && w.flags[i] > 0 ==> w.marker)
  }

  /** The flag of the calling process runs out between the two readings of the clock. */
  predicate FlagRunsOut(w: World, r: Request) {
    r.client < |w.flags| && RunsOut(w.flags[r.client], r.now, r.later)
  }

  /** Whichever side serves the call, reply and change are those of one store, the backup, unless the flag runs out between
      the readings; an application error changes nothing. */
  lemma CalledLikeOneStore(exec: (Command, Value) -> Effect, w: World, r: Request)
    requires ListIsComplete(exec) && Coherent(w) && ReadableBy(w, r) && !FlagRunsOut(w, r)
    ensures
      var (after, answer) := Called(exec, w, r);
      && Coherent(after) && (w.marker ==> after.marker)
      && (answer.Thrown? <==> r.weather.Refuses? && !w.marker)
      && (answer.Thrown? ==> after == w)
      && (answer.Replied? ==> answer.text == Reply(exec, w.backup, r.command)
                              && SameStore(after.backup, Applied(exec, w.backup, r.command)))
  {
    hide SameStore, Applied, Reply, ListIsComplete, Mutates;
    SameStoreReflexive(Applied(exec, w.backup, r.command));
    if !w.marker {
      SameStoreEffect(exec, w.primary, w.backup, r.command);
      if !Mutates(r.command) {
        NoEffect(exec, w.backup, r.command);
        SameStoreSymmetric(w.backup, Applied(exec, w.backup, r.command));
        SameStoreTransitive(Applied(exec, w.primary, r.command), Applied(exec, w.backup, r.command), w.backup);
      }
    }
  }

  /** With the marker set, a call reaches the demoted primary exactly when its flag runs out between the readings. */
  lemma ReachesDemotedPrimaryIff(w: World, r: Request)
    requires ReadableBy(w, r) && w.marker
    ensures !ChoosesBackup(w.flags[r.client], w.marker, r.now, r.later) <==> FlagRunsOut(w, r)
  {
  }

  /** What such a call returns is right exactly when the demoted primary would still reply as the backup does. */
  lemma RunOutReplyIff(exec: (Command, Value) -> Effect, w: World, r: Request)
    requires Coherent(w) && ReadableBy(w, r) && FlagRunsOut(w, r) && r.weather.Answers?
    ensures Called(exec, w, r).1 == Replied(Reply(exec, w.backup, r.command))
       <==> Reply(exec, w.primary, r.command) == Reply(exec, w.backup, r.command)
  {
    hide Reply, Applied;
  }

  // ---- Many processes, one call after another ----

  predicate AllReadable(flags: nat, requests: seq<Request>) {
    forall k :: 0 <= k < |requests| ==> requests[k].client < flags && requests[k].now <= requests[k].later <= requests[k].failedAt
  }

  function Served(exec: (Command, Value) -> Effect, w: World, requests: seq<Request>): (r: (World, seq<Answer>))
    requires AllReadable(|w.flags|, requests)
    ensures |r.0.flags| == |w.flags| && |r.1| == |requests|
  {
    if requests == [] then (w, [])
    else
      var (before, answers) := Served(exec, w, requests[..|requests| - 1]);
      var (after, answer) := Called(exec, before, requests[|requests| - 1]);
      (after, answers + [answer])
  }

  /** The flag of call `k` runs out between its two readings of the clock. */
  predicate RunsOutAt(exec: (Command, Value) -> Effect, w: World, requests: seq<Request>, k: nat)
    requires AllReadable(|w.flags|, requests) && k < |requests|
  {
    FlagRunsOut(Served(exec, w, requests[..k]).0, requests[k])
  }

  predicate NoFlagRunsOut(exec: (Command, Value) -> Effect, w: World, requests: seq<Request>)
    requires AllReadable(|w.flags|, requests)
  {
    forall k :: 0 <= k < |requests| ==> !RunsOutAt(exec, w, requests, k)
  }

  /** The replies of one store that executes the commands in order. */
  function SingleReplies(exec: (Command, Value) -> Effect, store: Store, requests: seq<Request>): seq<Answer> {
    if requests == [] then []
    else
      var before := requests[..|requests| - 1];
      SingleReplies(exec, store, before)
      + [Replied(Reply(exec, AfterAll(exec, store, before), requests[|requests| - 1].command))]
  }

  function AfterAll(exec: (Command, Value) -> Effect, store: Store, requests: seq<Request>): Store {
    if requests == [] then store
    else Applied(exec, AfterAll(exec, store, requests[..|requests| - 1]), requests[|requests| - 1].command)
  }

  lemma EarlierFlagsHold(exec: (Command, Value) -> Effect, w: World, requests: seq<Request>)
    requires requests != [] && AllReadable(|w.flags|, requests) && NoFlagRunsOut(exec, w, requests)
    ensures AllReadable(|w.flags|, requests[..|requests| - 1]) && NoFlagRunsOut(exec, w, requests[..|requests| - 1])
    ensures !FlagRunsOut(Served(exec, w, requests[..|requests| - 1]).0, requests[|requests| - 1])
  {
    hide Served, FlagRunsOut;
    var before := requests[..|requests| - 1];
    assert !RunsOutAt(exec, w, requests, |requests| - 1);
    forall k | 0 <= k < |before| ensures !RunsOutAt(exec, w, before, k) {
      SameRunOut(exec, w, requests, k);
      assert !RunsOutAt(exec, w, requests, k);
    }
  }

  lemma SameRunOut(exec: (Command, Value) -> Effect, w: World, requests: seq<Request>, k: nat)
    requires AllReadable(|w.flags|, requests) && k < |requests| - 1
    ensures RunsOutAt(exec, w, requests[..|requests| - 1], k) == RunsOutAt(exec, w, requests, k)
  {
    hide Served, FlagRunsOut;
    assert requests[..|requests| - 1][..k] == requests[..k];
  }

  /** Any number of processes, calling in turn in any weather that answers or breaks, get the replies of one store, as long
      as no flag runs out between the two readings of a call. */
  lemma {:induction false} ServedLikeOneStore(exec: (Command, Value) -> Effect, w: World, requests: seq<Request>)
    requires ListIsComplete(exec) && Coherent(w) && AllReadable(|w.flags|, requests) && NoFlagRunsOut(exec, w, requests)
    requires forall k :: 0 <= k < |requests| ==> !requests[k].weather.Refuses?
    ensures Coherent(Served(exec, w, requests).0)
    ensures Served(exec, w, requests).1 == SingleReplies(exec, w.backup, requests)
    ensures SameStore(Served(exec, w, requests).0.backup, AfterAll(exec, w.backup, requests))
  {
    hide ListIsComplete, SameStore, Applied, Reply, Called, NoFlagRunsOut, FlagRunsOut, Coherent;
    if requests == [] {
      SameStoreReflexive(w.backup);
    } else {
      var n := |requests| - 1;
      var before := requests[..n];
      EarlierFlagsHold(exec, w, requests);
      ServedLikeOneStore(exec, w, before);
      var middle := Served(exec, w, before).0;
      var c := requests[n].command;
      CalledLikeOneStore(exec, middle, requests[n]);
      SameStoreEffect(exec, middle.backup, AfterAll(exec, w.backup, before), c);
      assert Served(exec, w, requests).0 == Called(exec, middle, requests[n]).0;
      assert AfterAll(exec, w.backup, requests) == Applied(exec, AfterAll(exec, w.backup, before), c);
      SameStoreTransitive(Served(exec, w, requests).0.backup, Applied(exec, middle.backup, c), AfterAll(exec, w.backup, requests));
    }
  }

  // ---- Without a backup ----

  /** `callRedis` when no backup is configured. */
  function Alone(exec: (Command, Value) -> Effect, store: Store, command: Command, weather: Weather): (Store, Answer) {
    match weather
    case Answers => (Applied(exec, store, command), Replied(Reply(exec, store, command)))
    case Refuses => (store, Thrown)
    case Breaks(applied) => (if applied then Applied(exec, store, command) else store, Thrown)
  }

  /** A caller that repeats a thrown call gets the reply of a first execution if and only if the thrown call had no effect
      or the command replies the same the second time; and likewise for what is stored under the key. */
  lemma RetryAloneIff(exec: (Command, Value) -> Effect, store: Store, command: Command, weather: Weather)
    requires !weather.Answers?
    ensures
      var (left, _) := Alone(exec, store, command, weather);
      var (final, answer) := Alone(exec, left, command, Answers);
      && (answer == Replied(Reply(exec, store, command))
          <==> weather != Breaks(true) || Reply(exec, Applied(exec, store, command), command) == Reply(exec, store, command))
      && (SameStore(final, Applied(exec, store, command))
          <==> weather != Breaks(true)
               || SameStore(Applied(exec, Applied(exec, store, command), command), Applied(exec, store, command)))
  {
    hide Applied, Reply, SameStore;
    SameStoreReflexive(Applied(exec, store, command));
  }

  // ---- The program's own state ----

  /** The two databases and the shared marker. */
  class Databases {
    var primary: Store
    var backup: Store
    var marker: bool

    constructor (store: Store)
      ensures primary == backup == store && !marker
    {
      primary, backup, marker := store, store, false;
    }
  }

  /** One process. */
  class Client {
    const databases: Databases
    var primaryUnavailableUntil: int

    constructor (databases: Databases)
      ensures this.databases == databases && primaryUnavailableUntil == 0
    {
      this.databases := databases;
      primaryUnavailableUntil := 0;
    }

    ghost function View(): World
      reads this, databases
    {
      World(databases.primary, databases.backup, databases.marker, [primaryUnavailableUntil])
    }

    method ActivateSharedBackupAuthority(now: nat)
      modifies this`primaryUnavailableUntil, databases`marker
      ensures primaryUnavailableUntil == now + COOLDOWN && databases.marker
    {
      primaryUnavailableUntil := now + COOLDOWN;
      databases.marker := true;
    }

    method CallBackup(exec: (Command, Value) -> Effect, command: Command) returns (answer: Answer)
      modifies databases`backup
      ensures databases.backup == Applied(exec, old(databases.backup), command)
      ensures answer == Replied(Reply(exec, old(databases.backup), command))
    {
      answer := Replied(Reply(exec, databases.backup, command));
      databases.backup := Applied(exec, databases.backup, command);
    }

    /** One call, in place. Its reply and change are those of one store unless the flag runs out between the readings. */
    method CallRedis(exec: (Command, Value) -> Effect, command: Command, now: nat, later: nat, failedAt: nat, weather: Weather)
      returns (answer: Answer)
      requires now <= later <= failedAt
      modifies this`primaryUnavailableUntil, databases
      ensures (View(), answer) == Called(exec, old(View()), Request(0, command, now, later, failedAt, weather))
      ensures ListIsComplete(exec) && old(Coherent(View())) && !RunsOut(old(primaryUnavailableUntil), now, later) ==>
        && Coherent(View())
        && (answer.Replied? ==> answer.text == Reply(exec, old(databases.backup), command)
                                && SameStore(databases.backup, Applied(exec, old(databases.backup), command)))
    {
      hide ListIsComplete, SameStore, Applied, Reply, Mutates, Coherent;
      ghost var start := View();
      var marker := primaryUnavailableUntil <= now && databases.marker;
      if UseBackup(primaryUnavailableUntil, marker, later) {
        answer := CallBackup(exec, command);
      } else {
        match weather
        case Answers =>
          var reply := Reply(exec, databases.primary, command);
          databases.primary := Applied(exec, databases.primary, command);
          primaryUnavailableUntil := 0;
          if Mutates(command) {
            var mirrored := CallBackup(exec, command);
          }
          answer := Replied(reply);
        case Refuses =>
          answer := Thrown;
        case Breaks(applied) =>
          if applied {
            databases.primary := Applied(exec, databases.primary, command);
          }
          ActivateSharedBackupAuthority(failedAt);
          answer := CallBackup(exec, command);
      }
      assert View().flags == start.flags[0 := primaryUnavailableUntil];
      if ListIsComplete(exec) && Coherent(start) && !RunsOut(start.flags[0], now, later) {
        CalledLikeOneStore(exec, start, Request(0, command, now, later, failedAt, weather));
      }
    }

    /** The same call in a process without a backup. */
    method CallRedisAlone(exec: (Command, Value) -> Effect, command: Command, weather: Weather) returns (answer: Answer)
      modifies this`primaryUnavailableUntil, databases`primary
      ensures (databases.primary, answer) == Alone(exec, old(databases.primary), command, weather)
      ensures primaryUnavailableUntil == if weather.Answers? then 0 else old(primaryUnavailableUntil)
    {
      match weather
      case Answers =>
        answer := Replied(Reply(exec, databases.primary, command));
        databases.primary := Applied(exec, databases.primary, command);
        primaryUnavailableUntil := 0;
      case Refuses =>
        answer := Thrown;
      case Breaks(applied) =>
        if applied {
          databases.primary := Applied(exec, databases.primary, command);
        }
        answer := Thrown;
    }
  }

  lemma ServedNext(exec: (Command, Value) -> Effect, w: World, requests: seq<Request>, k: nat)
    requires AllReadable(|w.flags|, requests) && k < |requests|
    ensures
      var (before, answers) := Served(exec, w, requests[..k]);
      var (after, answer) := Called(exec, before, requests[k]);
      Served(exec, w, requests[..k + 1]) == (after, answers + [answer])
  {
    hide Called;
    assert requests[..k + 1][..k] == requests[..k];
  }

  /** A call sees and changes no flag but its own. */
  lemma OwnFlagOnly(exec: (Command, Value) -> Effect, w: World, r: Request)
    requires ReadableBy(w, r)
    ensures
      var (after, answer) := Called(exec, w, r);
      var (own, ownAnswer) := Called(exec, w.(flags := [w.flags[r.client]]), r.(client := 0));
      && answer == ownAnswer && |own.flags| == 1
      && after == own.(flags := w.flags[r.client := own.flags[0]])
  {
    hide Applied, Reply, Mutates;
  }

  ghost function Flags(clients: seq<Client>): (flags: seq<int>)
    reads clients
    ensures |flags| == |clients|
  {
    seq(|clients|, i requires 0 <= i < |clients| reads clients => clients[i].primaryUnavailableUntil)
  }

  ghost function ViewOf(databases: Databases, clients: seq<Client>): World
    reads databases, clients
  {
    World(databases.primary, databases.backup, databases.marker, Flags(clients))
  }

  /** Different processes, all on these databases. */
  ghost predicate Connected(databases: Databases, clients: seq<Client>) {
    && (forall i :: 0 <= i < |clients| ==> clients[i].databases == databases)
    && (forall i, j :: 0 <= i < j < |clients| ==> clients[i] != clients[j])
  }

  method ServeOne(exec: (Command, Value) -> Effect, databases: Databases, clients: seq<Client>, r: Request) returns (answer: Answer)
    requires Connected(databases, clients) && ReadableBy(ViewOf(databases, clients), r)
    modifies databases, clients
    ensures (ViewOf(databases, clients), answer) == Called(exec, old(ViewOf(databases, clients)), r)
  {
    hide Applied, Reply, Mutates, Coherent, SameStore, ListIsComplete, Called;
    ghost var w := ViewOf(databases, clients);
    OwnFlagOnly(exec, w, r);
    answer := clients[r.client].CallRedis(exec, r.command, r.now, r.later, r.failedAt, r.weather);
    assert Flags(clients) == w.flags[r.client := clients[r.client].primaryUnavailableUntil];
  }

  /** Calls in turn; the replies are those of one store if no flag runs out between the readings of a call. */
  method ServeInTurn(exec: (Command, Value) -> Effect, databases: Databases, clients: seq<Client>, requests: seq<Request>)
    returns (answers: seq<Answer>)
    requires Connected(databases, clients) && AllReadable(|clients|, requests)
    modifies databases, clients
    ensures (ViewOf(databases, clients), answers) == Served(exec, old(ViewOf(databases, clients)), requests)
  {
    answers := [];
    ghost var start := ViewOf(databases, clients);
    var k := 0;
    while k < |requests|
      invariant 0 <= k <= |requests|
      invariant (ViewOf(databases, clients), answers) == Served(exec, start, requests[..k])
    {
      hide Called, Served, Connected;
      ServedNext(exec, start, requests, k);
      var answer := ServeOne(exec, databases, clients, requests[k]);
      answers := answers + [answer];
      k := k + 1;
    }
    assert requests[..k] == requests;
  }
}
