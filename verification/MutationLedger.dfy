/** The claim/result ledger around every broker mutation, with crashes at any point and ambiguous outcomes. */
module MutationLedger {
  import opened Common
  import opened ManagerDomain

  datatype Action =
    | Protect(updatedAt: int, slTicks: int, tpTicks: int)
    | BreakEven(ticks: int)
    | CloseAtR(level: real)
    | RPartial(index: nat, volume: int)
    | Dynamic(ruleId: string)

  datatype Key = Key(account: int, position: int, action: Action)

  datatype Progress = Running | Uncertain | Done

  /** Volumes are 0 in entries of protection mutations. */
  datatype Entry = Entry(progress: Progress, heldBefore: int, requested: int)

  /** A broker call, with whether the key was recorded as running when it was sent and whether it took effect. */
  datatype Call = Call(key: Key, volume: int, stop: real, take: real, recorded: bool, applied: bool)

  datatype Books = Books(ledger: map<Key, Entry>, calls: seq<Call>)

  /** What happens around one attempt: it succeeds; it throws, in the call or when `done` is written, after having taken
      effect or not; or the process dies before recording, between recording and calling, or after the call. */
  datatype Weather =
    | Smooth
    | Throws(applied: bool)
    | CrashEarly
    | CrashBeforeCall
    | CrashAfterCall(applied: bool)

  datatype Answer = Confirmed | Unclear | Crashed

  datatype Reply = Reply(books: Books, answer: Answer, called: bool, applied: bool)

  function Record(b: Books, key: Key, e: Entry): Books {
    b.(ledger := b.ledger[key := e])
  }

  function Send(b: Books, key: Key, volume: int, stop: real, take: real, applied: bool): Books {
    b.(calls := b.calls + [Call(key, volume, stop, take, key in b.ledger && b.ledger[key].progress == Running, applied)])
  }

  /** Record `running`, call the broker, record the result. */
  function Attempt(b: Books, key: Key, held: int, volume: int, stop: real, take: real, w: Weather): Reply {
    var running := Record(b, key, Entry(Running, held, volume));
    match w
    case CrashEarly => Reply(b, Crashed, false, false)
    case CrashBeforeCall => Reply(running, Crashed, false, false)
    case CrashAfterCall(applied) => Reply(Send(running, key, volume, stop, take, applied), Crashed, true, applied)
    case Throws(applied) =>
      Reply(Record(Send(running, key, volume, stop, take, applied), key, Entry(Uncertain, held, volume)), Unclear, true, applied)
    case Smooth =>
      Reply(Record(Send(running, key, volume, stop, take, true), key, Entry(Done, held, volume)), Confirmed, true, true)
  }

  function AfterClose(b: Books, key: Key, held: int, step: int, volume: int, w: Weather): Reply {
    if key !in b.ledger then Attempt(b, key, held, volume, 0.0, 0.0, w)
    else
      var e := b.ledger[key];
      if e.progress == Done then Reply(b, Confirmed, false, false)
      else if e.heldBefore != 0 && e.requested != 0 && 2 * held <= 2 * (e.heldBefore - e.requested) + step
      then Reply(Record(b, key, e.(progress := Done)), Confirmed, false, false)
      else Reply(b, Unclear, false, false)
  }

  function AfterProtect(b: Books, key: Key, reconciled: bool, stop: real, take: real, w: Weather): Reply {
    if reconciled then
      Reply(if key in b.ledger && b.ledger[key].progress == Done then b else Record(b, key, Entry(Done, 0, 0)), Confirmed, false, false)
    else if key !in b.ledger then Attempt(b, key, 0, 0, stop, take, w)
    else Reply(b, if b.ledger[key].progress == Done then Confirmed else Unclear, false, false)
  }

  // ---- Whole histories of guarded mutations ----

  datatype Mutation =
    | Close(key: Key, held: int, step: int, volume: int, weather: Weather)
    | Protection(key: Key, reconciled: bool, stop: real, take: real, weather: Weather)

  function After(b: Books, m: Mutation): Books {
    match m
    case Close(key, held, step, volume, w) => AfterClose(b, key, held, step, volume, w).books
    case Protection(key, reconciled, stop, take, w) => AfterProtect(b, key, reconciled, stop, take, w).books
  }

  function History(ms: seq<Mutation>): Books {
    if ms == [] then Books(map[], []) else After(History(ms[..|ms| - 1]), ms[|ms| - 1])
  }

  function Rank(b: Books, key: Key): nat {
    if key !in b.ledger then 0
    else match b.ledger[key].progress case Running => 1 case Uncertain => 2 case Done => 3
  }

  ghost predicate Called(b: Books, key: Key) {
    exists i :: 0 <= i < |b.calls| && b.calls[i].key == key
  }

  ghost predicate BooksSound(b: Books) {
    && (forall i, j :: 0 <= i < j < |b.calls| ==> b.calls[i].key != b.calls[j].key)
    && (forall i :: 0 <= i < |b.calls| ==> b.calls[i].recorded && b.calls[i].key in b.ledger)
  }

  ghost predicate Extends(b: Books, next: Books) {
    b.calls <= next.calls && forall key :: Rank(b, key) <= Rank(next, key)
  }

  lemma AttemptKeepsBooks(b: Books, key: Key, held: int, volume: int, stop: real, take: real, w: Weather)
    requires BooksSound(b) && key !in b.ledger
    ensures BooksSound(Attempt(b, key, held, volume, stop, take, w).books)
    ensures Extends(b, Attempt(b, key, held, volume, stop, take, w).books)
  {
  }

  lemma MutationKeepsBooks(b: Books, m: Mutation)
    requires BooksSound(b)
    ensures BooksSound(After(b, m)) && Extends(b, After(b, m))
  {
    hide Attempt;
    if m.key !in b.ledger {
      match m
      case Close(key, held, _, volume, w) => AttemptKeepsBooks(b, key, held, volume, 0.0, 0.0, w);
      case Protection(key, _, stop, take, w) => AttemptKeepsBooks(b, key, 0, 0, stop, take, w);
    }
  }

  /** Whatever the crashes and outcomes: the broker is called at most once per (account, position, action key),
      and every call was preceded by a stored `running` entry for its key. */
  lemma {:induction false} BrokerCalledAtMostOnce(ms: seq<Mutation>)
    ensures BooksSound(History(ms))
  {
    if ms != [] {
      BrokerCalledAtMostOnce(ms[..|ms| - 1]);
      MutationKeepsBooks(History(ms[..|ms| - 1]), ms[|ms| - 1]);
    }
  }

  /** A key's ledger status only moves forward: absent, running, uncertain, done. */
  lemma {:induction false} LedgerMovesForward(ms: seq<Mutation>, i: nat, key: Key)
    requires i <= |ms|
    ensures Rank(History(ms[..i]), key) <= Rank(History(ms), key)
    ensures History(ms[..i]).calls <= History(ms).calls
  {
    if i == |ms| {
      assert ms[..i] == ms;
    } else {
      var before := ms[..|ms| - 1];
      assert before[..i] == ms[..i];
      LedgerMovesForward(before, i, key);
      BrokerCalledAtMostOnce(before);
      MutationKeepsBooks(History(before), ms[|ms| - 1]);
    }
  }

  // ---- Who decides about a key ----

  /** A mutation that leaves an entry for its key. */
  predicate Leaves(m: Mutation) {
    !m.weather.CrashEarly? || (m.Protection? && m.reconciled)
  }

  /** The first mutation of a key that leaves an entry. */
  ghost predicate FirstLeft(ms: seq<Mutation>, i: int, key: Key) {
    && 0 <= i < |ms| && ms[i].key == key && Leaves(ms[i])
    && forall j :: 0 <= j < i && ms[j].key == key ==> !Leaves(ms[j])
  }

  /** The call that a mutation sends when its key has no entry: none if the state is in place or the process dies before. */
  function CallsOf(m: Mutation): seq<Call> {
    var applied := m.weather.Smooth? || ((m.weather.Throws? || m.weather.CrashAfterCall?) && m.weather.applied);
    if m.weather.CrashEarly? || m.weather.CrashBeforeCall? || (m.Protection? && m.reconciled) then []
    else if m.Close? then [Call(m.key, m.volume, 0.0, 0.0, true, applied)]
    else [Call(m.key, 0, m.stop, m.take, true, applied)]
  }

  /** All calls of one key. */
  function CallsFor(calls: seq<Call>, key: Key): seq<Call> {
    if calls == [] then []
    else CallsFor(calls[..|calls| - 1], key) + if calls[|calls| - 1].key == key then [calls[|calls| - 1]] else []
  }

  lemma {:induction false} CallsForAppend(calls: seq<Call>, more: seq<Call>, key: Key)
    requires |more| <= 1
    ensures CallsFor(calls + more, key) == CallsFor(calls, key) + if more != [] && more[0].key == key then more else []
  {
    if more == [] { assert calls + more == calls; } else { assert (calls + more)[..|calls|] == calls; }
  }

  /** One step: a key with an entry gets no call; one without gets the mutation's. */
  lemma StepCalls(b: Books, m: Mutation)
    ensures After(b, m).calls == b.calls + if m.key in b.ledger then [] else CallsOf(m)
    ensures forall key :: key in After(b, m).ledger <==> key in b.ledger || (key == m.key && Leaves(m))
  {
  }

  /** In every history, a key has an entry exactly when some mutation of it left one, and the broker has got for it exactly
      the call of the first that did, with that one's volume, prices and fate: whatever came later sent nothing. */
  lemma {:induction false} FirstDecides(ms: seq<Mutation>, key: Key)
    ensures key in History(ms).ledger <==> exists i :: FirstLeft(ms, i, key)
    ensures forall i :: FirstLeft(ms, i, key) ==> CallsFor(History(ms).calls, key) == CallsOf(ms[i])
    ensures key !in History(ms).ledger ==> CallsFor(History(ms).calls, key) == []
  {
    if ms != [] {
      var n := |ms| - 1;
      FirstDecides(ms[..n], key);
      hide *;
      HistoryStep(ms);
      StepCalls(History(ms[..n]), ms[n]);
      if exists i :: FirstLeft(ms[..n], i, key) {
        var i :| FirstLeft(ms[..n], i, key);
        LaterSendsNothing(History(ms[..n]), ms, i, key);
      } else {
        NothingLeftYet(History(ms[..n]), ms[..n], ms, key);
      }
      FirstIsOne(ms, key);
    }
  }

  lemma LaterSendsNothing(before: Books, ms: seq<Mutation>, i: int, key: Key)
    requires ms != [] && FirstLeft(ms[..|ms| - 1], i, key) && key in before.ledger
    ensures FirstLeft(ms, i, key) && ms[i] == ms[..|ms| - 1][i]
    ensures
      var m := ms[|ms| - 1];
      CallsFor(before.calls + if m.key in before.ledger then [] else CallsOf(m), key) == CallsFor(before.calls, key)
  {
    var m := ms[|ms| - 1];
    CallsForAppend(before.calls, if m.key in before.ledger then [] else CallsOf(m), key);
  }

  lemma NothingLeftYet(before: Books, earlier: seq<Mutation>, ms: seq<Mutation>, key: Key)
    requires ms != [] && earlier == ms[..|ms| - 1] && key !in before.ledger && CallsFor(before.calls, key) == []
    requires forall i :: !FirstLeft(earlier, i, key)
    ensures
      var m := ms[|ms| - 1];
      var calls := before.calls + if m.key in before.ledger then [] else CallsOf(m);
      if key == m.key && Leaves(m) then FirstLeft(ms, |ms| - 1, key) && CallsFor(calls, key) == CallsOf(m)
      else (forall i :: !FirstLeft(ms, i, key)) && CallsFor(calls, key) == []
  {
    var (n, m) := (|ms| - 1, ms[|ms| - 1]);
    CallsForAppend(before.calls, if m.key in before.ledger then [] else CallsOf(m), key);
    forall i | 0 <= i < n && ms[i].key == key ensures !Leaves(ms[i]) { NoneLeft(earlier, i, key); }
  }

  lemma HistoryStep(ms: seq<Mutation>)
    requires ms != []
    ensures History(ms) == After(History(ms[..|ms| - 1]), ms[|ms| - 1])
  {
  }

  lemma FirstIsOne(ms: seq<Mutation>, key: Key)
    ensures forall i, j :: FirstLeft(ms, i, key) && FirstLeft(ms, j, key) ==> i == j
  {
  }

  lemma {:induction false} NoneLeft(ms: seq<Mutation>, i: nat, key: Key)
    requires (forall k :: !FirstLeft(ms, k, key)) && i < |ms| && ms[i].key == key
    ensures !Leaves(ms[i])
    decreases i
  {
    forall j | 0 <= j < i && ms[j].key == key ensures !Leaves(ms[j]) { NoneLeft(ms, j, key); }
    assert !FirstLeft(ms, i, key);
  }

  /** What a reply tells: whether the broker was called now, and whether that call took effect. */
  lemma ReplyTells(b: Books, m: Mutation)
    ensures
      var r := match m
               case Close(key, held, step, volume, w) => AfterClose(b, key, held, step, volume, w)
               case Protection(key, reconciled, stop, take, w) => AfterProtect(b, key, reconciled, stop, take, w);
      && (r.called <==> r.books.calls != b.calls)
      && (r.applied <==> r.books.calls != b.calls && r.books.calls[|r.books.calls| - 1].applied)
      && (r.answer == Crashed <==> m.key !in b.ledger && (m.Protection? ==> !m.reconciled)
                                   && (m.weather.CrashEarly? || m.weather.CrashBeforeCall? || m.weather.CrashAfterCall?))
      && (r.answer == Confirmed ==> m.key in r.books.ledger && r.books.ledger[m.key].progress == Done)
      && (r.answer == Unclear ==> m.key in r.books.ledger && r.books.ledger[m.key].progress != Done)
  {
  }

  // ---- The manager's own code ----

  class Position {
    const id: int
    const side: Side
    const openPrice: real
    const point: real
    const minVolume: int
    const stepVolume: int
    const updatedAt: int
    var volumeRaw: int
    var stopLoss: real
    var takeProfit: real

    constructor (id: int, side: Side, openPrice: real, point: real, minVolume: int, stepVolume: int, updatedAt: int,
                 volumeRaw: int, stopLoss: real, takeProfit: real)
      ensures this.id == id && this.side == side && this.openPrice == openPrice && this.point == point
      ensures this.minVolume == minVolume && this.stepVolume == stepVolume && this.updatedAt == updatedAt
      ensures this.volumeRaw == volumeRaw && this.stopLoss == stopLoss && this.takeProfit == takeProfit
    {
      this.id, this.side, this.openPrice, this.point := id, side, openPrice, point;
      this.minVolume, this.stepVolume, this.updatedAt := minVolume, stepVolume, updatedAt;
      this.volumeRaw, this.stopLoss, this.takeProfit := volumeRaw, stopLoss, takeProfit;
    }
  }

  /** One attempt, step by step: it records the key as running, calls, and records the result, as far as it gets. */
  ghost predicate Attempted(key: Key, held: int, volume: int, stop: real, take: real, w: Weather,
                            entries0: map<Key, Entry>, calls0: seq<Call>, entries: map<Key, Entry>, calls: seq<Call>, answer: Answer) {
    match w
    case CrashEarly => entries == entries0 && calls == calls0 && answer == Crashed
    case CrashBeforeCall => entries == entries0[key := Entry(Running, held, volume)] && calls == calls0 && answer == Crashed
    case CrashAfterCall(applied) =>
      && entries == entries0[key := Entry(Running, held, volume)]
      && calls == calls0 + [Call(key, volume, stop, take, true, applied)] && answer == Crashed
    case Throws(applied) =>
      && entries == entries0[key := Entry(Uncertain, held, volume)]
      && calls == calls0 + [Call(key, volume, stop, take, true, applied)] && answer == Unclear
    case Smooth =>
      && entries == entries0[key := Entry(Done, held, volume)]
      && calls == calls0 + [Call(key, volume, stop, take, true, true)] && answer == Confirmed
  }

  class Ledger {
    var entries: map<Key, Entry>
    var calls: seq<Call>

    ghost function View(): Books
      reads this
    {
      Books(entries, calls)
    }

    constructor ()
      ensures View() == Books(map[], [])
    {
      entries, calls := map[], [];
    }

    /** Ends early, as a dying process does, where `w` says so. */
    method CallBroker(key: Key, held: int, volume: int, stop: real, take: real, w: Weather) returns (answer: Answer, applied: bool)
      modifies this
      ensures
        var r := Attempt(old(View()), key, held, volume, stop, take, w);
        View() == r.books && answer == r.answer && applied == r.applied
      ensures Attempted(key, held, volume, stop, take, w, old(entries), old(calls), entries, calls, answer)
    {
      answer, applied := Crashed, false;
      if w.CrashEarly? {
        return;
      }
      entries := entries[key := Entry(Running, held, volume)];
      if w.CrashBeforeCall? {
        return;
      }
      applied := w.Smooth? || w.applied;
      calls := calls + [Call(key, volume, stop, take, entries[key].progress == Running, applied)];
      if w.CrashAfterCall? {
        return;
      }
      entries := entries[key := Entry(if w.Smooth? then Done else Uncertain, held, volume)];
      answer := if w.Smooth? then Confirmed else Unclear;
    }

    /** A key without an entry is attempted. One whose entry is not done is confirmed, without a call, exactly when the volume
        held now shows that the requested one is gone, up to half a step. */
    method GuardedClose(position: Position, key: Key, volume: int, w: Weather) returns (answer: Answer, applied: bool)
      modifies this, position`volumeRaw
      ensures
        var r := AfterClose(old(View()), key, old(position.volumeRaw), position.stepVolume, volume, w);
        && View() == r.books && answer == r.answer && applied == r.applied
        && position.volumeRaw == if r.called && answer == Confirmed then MaxInt(0, old(position.volumeRaw) - volume) else old(position.volumeRaw)
      ensures key !in old(entries) ==> Attempted(key, old(position.volumeRaw), volume, 0.0, 0.0, w, old(entries), old(calls), entries, calls, answer)
      ensures key in old(entries) ==>
        var (e, gone) := (old(entries)[key], old(position.volumeRaw) as real <= (old(entries)[key].heldBefore - old(entries)[key].requested) as real + position.stepVolume as real / 2.0);
        && calls == old(calls) && position.volumeRaw == old(position.volumeRaw) && !applied
        && answer == (if e.progress == Done || (e.heldBefore != 0 && e.requested != 0 && gone) then Confirmed else Unclear)
        && entries == (if answer == Confirmed then old(entries)[key := e.(progress := Done)] else old(entries))
      ensures
        var held := old(position.volumeRaw);
        key !in old(entries) ==> position.volumeRaw == (if !w.Smooth? then held else if held > volume then held - volume else 0)
    {
      if key in entries {
        var existing := entries[key];
        if existing.progress == Done {
          return Confirmed, false;
        }
        if existing.heldBefore != 0 && existing.requested != 0
           && 2 * position.volumeRaw <= 2 * (existing.heldBefore - existing.requested) + position.stepVolume {
          entries := entries[key := existing.(progress := Done)];
          return Confirmed, false;
        }
        return Unclear, false;
      }
      answer, applied := CallBroker(key, position.volumeRaw, volume, 0.0, 0.0, w);
      if answer == Confirmed {
        position.volumeRaw := MaxInt(0, position.volumeRaw - volume);
      }
    }

    /** Prices that are in place, up to half a point, are confirmed without a call; otherwise the entry decides. */
    method GuardedProtection(position: Position, key: Key, stop: real, take: real, w: Weather) returns (answer: Answer, applied: bool)
      modifies this, position`stopLoss, position`takeProfit
      ensures
        var r := AfterProtect(old(View()), key, InPlace(old(position.stopLoss), old(position.takeProfit), stop, take, position.point), stop, take, w);
        && View() == r.books && answer == r.answer && applied == r.applied
        && position.stopLoss == (if r.called && answer == Confirmed then stop else old(position.stopLoss))
        && position.takeProfit == (if r.called && answer == Confirmed then take else old(position.takeProfit))
      ensures
        var inPlace := (stop <= 0.0 || -0.51 * position.point <= old(position.stopLoss) - stop <= 0.51 * position.point)
                    && (take <= 0.0 || -0.51 * position.point <= old(position.takeProfit) - take <= 0.51 * position.point);
        && (inPlace ==>
              && calls == old(calls) && answer == Confirmed
              && entries == if key in old(entries) && old(entries)[key].progress == Done then old(entries)
                            else old(entries)[key := Entry(Done, 0, 0)])
        && (!inPlace && key in old(entries) ==>
              && calls == old(calls) && entries == old(entries)
              && answer == if old(entries)[key].progress == Done then Confirmed else Unclear)
        && (!inPlace && key !in old(entries) ==>
              Attempted(key, 0, 0, stop, take, w, old(entries), old(calls), entries, calls, answer))
        && (position.stopLoss, position.takeProfit)
           == (if !inPlace && key !in old(entries) && w.Smooth? then (stop, take) else (old(position.stopLoss), old(position.takeProfit)))
    {
      if InPlace(position.stopLoss, position.takeProfit, stop, take, position.point) {
        if key !in entries || entries[key].progress != Done {
          entries := entries[key := Entry(Done, 0, 0)];
        }
        return Confirmed, false;
      }
      if key in entries {
        return if entries[key].progress == Done then Confirmed else Unclear, false;
      }
      answer, applied := CallBroker(key, 0, 0, stop, take, w);
      if answer == Confirmed {
        position.stopLoss := stop;
        position.takeProfit := take;
      }
    }
  }

  predicate PriceClose(a: real, b: real, point: real) {
    (if a >= b then a - b else b - a) <= point * 0.51
  }

  /** The wanted protection is already there; a price that is not positive asks for nothing. */
  predicate InPlace(haveStop: real, haveTake: real, stop: real, take: real, point: real) {
    (stop <= 0.0 || PriceClose(haveStop, stop, point)) && (take <= 0.0 || PriceClose(haveTake, take, point))
  }
}
