/** What management cycles keep whatever the broker answers and wherever the process dies. */
module PositionOutcomes {
  import opened Common
  import opened ManagerDomain
  import opened MutationLedger
  import opened PositionManager
  import opened PositionSafety

  /** The outcomes of a call that was sent and took effect. */
  predicate Takes(w: Weather) {
    w.Smooth? || (w.Throws? && w.applied) || (w.CrashAfterCall? && w.applied)
  }

  // ---- The volume never falls below the minimum ----

  lemma AttachKeepsVolume(cfg: Settings, ins: Instrument, mkt: Market, d: Desk, w: Weather)
    requires ins.Valid()
    ensures
      var after := Attached(cfg, ins, mkt, d, w);
      after.truth.volume == d.truth.volume && after.local.volume == d.local.volume && after.memory == d.memory
  {
    hide AfterProtect;
  }

  lemma BreakEvenKeepsVolume(cfg: Settings, ins: Instrument, r: Option<real>, d: Desk, w: Weather)
    requires ins.Valid()
    ensures BrokenEven(cfg, ins, r, d, w).truth.volume == d.truth.volume
  {
    hide AfterProtect;
  }

  /** What a guarded close does to the broker's volume and to the local copy. */
  lemma ReducedVolumes(ins: Instrument, d: Desk, a: Action, volume: int, w: Weather)
    ensures
      var after := Reduced(ins, d, a, volume, w);
      var sent := KeyOf(ins, a) !in d.books.ledger;
      && after.truth.volume == (if sent && Takes(w) then MaxInt(0, d.truth.volume - volume) else d.truth.volume)
      && after.local.volume == (if sent && w.Smooth? then MaxInt(0, d.local.volume - volume) else d.local.volume)
      && (after.crashed <==> sent && !w.Smooth? && !w.Throws?)
      && after.memory == d.memory
  {
  }

  /** The volume the partial stage sends, or none. */
  function PartialVolume(cfg: Settings, ins: Instrument, r: Option<real>, d: Desk): int {
    if r.None? || cfg.levels == [] || cfg.percents == [] || d.local.volume <= ins.minVolume then 0
    else
      var i := NextLevel(cfg.levels, d.memory.mask, r.value, 0);
      if i >= |cfg.levels| || i >= MAX_LEVELS then 0
      else
        var volume := LevelVolume(cfg, ins, d, i);
        if volume > 0 && KeyOf(ins, RPartial(i, volume)) !in d.books.ledger then volume else 0
  }

  /** The partial stage leaves the broker at least the minimum, and the local copy right unless its call took effect
      without being confirmed. */
  lemma PartialStage(cfg: Settings, ins: Instrument, r: Option<real>, d: Desk, w: Weather)
    requires ins.Valid() && d.truth.volume == d.local.volume && !d.crashed
    ensures
      var after := PartiallyClosed(cfg, ins, r, d, w);
      var volume := PartialVolume(cfg, ins, r, d);
      && after.truth.volume == (if volume > 0 && Takes(w) then d.truth.volume - volume else d.truth.volume)
      && (volume > 0 ==> d.truth.volume - volume >= ins.minVolume)
      && (after.crashed || after.truth.volume == after.local.volume || (volume > 0 && w == Throws(true)))
      && after.memory.rule == d.memory.rule
  {
    hide Reduced, CloseConfirmed, LevelVolume;
    if r.Some? && cfg.levels != [] && cfg.percents != [] && d.local.volume > ins.minVolume {
      var i := NextLevel(cfg.levels, d.memory.mask, r.value, 0);
      if i < |cfg.levels| && i < MAX_LEVELS {
        var volume := LevelVolume(cfg, ins, d, i);
        LevelVolumeFits(cfg, ins, d, i);
        ReducedVolumes(ins, d, RPartial(i, volume), volume, w);
      }
    }
  }

  lemma LevelVolumeFits(cfg: Settings, ins: Instrument, d: Desk, i: nat)
    requires ins.Valid()
    ensures LevelVolume(cfg, ins, d, i) > 0 ==> d.local.volume - LevelVolume(cfg, ins, d, i) >= ins.minVolume
  {
    PartialCloseFits(d.local.volume, d.memory.originalVolume, PercentFor(cfg, i), ins.minVolume, ins.stepVolume, |cfg.percents| > 1);
  }

  /** The rule stage sends a close, and it takes effect. */
  predicate RuleTakes(ins: Instrument, mkt: Market, d: Desk, w: Weather)
    requires ins.Valid()
  {
    && d.memory.rule.Some? && d.local.volume > ins.minVolume && RuleHit(ins, mkt, d.memory.rule.value)
    && RuleVolume(ins, d, d.memory.rule.value) >= ins.minVolume
    && KeyOf(ins, Dynamic(d.memory.rule.value.ruleId)) !in d.books.ledger && Takes(w)
  }

  lemma RuleStage(ins: Instrument, mkt: Market, d: Desk, w: Weather)
    requires ins.Valid()
    ensures RuleApplied(ins, mkt, d, w).truth.volume ==
      if RuleTakes(ins, mkt, d, w) then MaxInt(0, d.truth.volume - RuleVolume(ins, d, d.memory.rule.value)) else d.truth.volume
    ensures d.memory.rule.Some? && d.local.volume > ins.minVolume ==>
      RuleVolume(ins, d, d.memory.rule.value) <= d.local.volume - ins.minVolume
  {
    hide Reduced, CloseConfirmed;
    if d.memory.rule.Some? {
      ReducedVolumes(ins, d, Dynamic(d.memory.rule.value.ruleId), RuleVolume(ins, d, d.memory.rule.value), w);
    }
  }

  /** The desk in front of the rule stage, if the cycle gets there. */
  function BeforeRule(cfg: Settings, ins: Instrument, mkt: Market, start: Desk, f: Forecast): Desk
    requires ins.Valid()
  {
    var d1 := Attached(cfg, ins, mkt, start, f.attach);
    PartiallyClosed(cfg, ins, R(ins, mkt, d1.memory), d1, f.partial)
  }

  /** The rule closes more than the broker still holds above the minimum. */
  predicate Overdraws(cfg: Settings, ins: Instrument, mkt: Market, start: Desk, f: Forecast)
    requires ins.Valid()
  {
    var d2 := BeforeRule(cfg, ins, mkt, start, f);
    && !Attached(cfg, ins, mkt, start, f.attach).crashed && !d2.crashed
    && RuleTakes(ins, mkt, d2, f.rule)
    && RuleVolume(ins, d2, d2.memory.rule.value) > d2.truth.volume - ins.minVolume
  }

  /** For any outcomes and crashes, a cycle in which close-at-R does not fire leaves the broker at least the minimum volume
      exactly when its rule does not overdraw, and that takes a partial close that took effect but threw. */
  lemma CycleKeepsMinimumIff(cfg: Settings, ins: Instrument, mkt: Market, start: Desk, f: Forecast)
    requires ins.Valid() && start.truth == start.local && !start.crashed && start.truth.volume >= ins.minVolume
    requires !CloseFires(cfg, R(ins, mkt, start.memory))
    ensures Cycle(cfg, ins, mkt, start, f).truth.volume >= ins.minVolume <==> !Overdraws(cfg, ins, mkt, start, f)
    ensures Overdraws(cfg, ins, mkt, start, f) ==>
      f.partial == Throws(true)
      && BeforeRule(cfg, ins, mkt, start, f).truth.volume < BeforeRule(cfg, ins, mkt, start, f).local.volume
    ensures Cycle(cfg, ins, mkt, start, f).truth.volume <= start.truth.volume
  {
    hide Attached, PartiallyClosed, RuleApplied, BrokenEven, R, RuleTakes, RuleVolume, PartialVolume, Takes;
    var d1 := Attached(cfg, ins, mkt, start, f.attach);
    AttachKeepsVolume(cfg, ins, mkt, start, f.attach);
    if !d1.crashed {
      var r := R(ins, mkt, start.memory);
      var d2 := PartiallyClosed(cfg, ins, r, d1, f.partial);
      PartialStage(cfg, ins, r, d1, f.partial);
      PartialVolumeNotNegative(cfg, ins, r, d1);
      if !d2.crashed {
        RuleStage(ins, mkt, d2, f.rule);
        RuleTakesEnough(ins, mkt, d2, f.rule);
        BreakEvenKeepsVolume(cfg, ins, r, RuleApplied(ins, mkt, d2, f.rule), f.even);
      }
    }
  }

  lemma PartialVolumeNotNegative(cfg: Settings, ins: Instrument, r: Option<real>, d: Desk)
    ensures PartialVolume(cfg, ins, r, d) >= 0
  {
  }

  lemma RuleTakesEnough(ins: Instrument, mkt: Market, d: Desk, w: Weather)
    requires ins.Valid()
    ensures RuleTakes(ins, mkt, d, w) ==>
      d.memory.rule.Some? && d.local.volume > ins.minVolume && RuleVolume(ins, d, d.memory.rule.value) >= ins.minVolume
  {
  }

  /** A position below the minimum is left as it is. */
  lemma BelowMinimumStays(cfg: Settings, ins: Instrument, mkt: Market, start: Desk, f: Forecast)
    requires ins.Valid() && start.truth == start.local && start.truth.volume < ins.minVolume
    requires !CloseFires(cfg, R(ins, mkt, start.memory))
    ensures Cycle(cfg, ins, mkt, start, f).truth.volume == start.truth.volume
  {
    hide Attached, BrokenEven, R, RuleHit;
    var d1 := Attached(cfg, ins, mkt, start, f.attach);
    AttachKeepsVolume(cfg, ins, mkt, start, f.attach);
    BreakEvenKeepsVolume(cfg, ins, R(ins, mkt, d1.memory), d1, f.even);
  }

  /** In no cycle of the run does the rule overdraw. */
  predicate NeverOverdraws(ins: Instrument, opening: Holding, ts: seq<Turn>)
    requires ins.Valid()
  {
    ts == [] ||
      (var before := ts[..|ts| - 1];
       var t := ts[|ts| - 1];
       NeverOverdraws(ins, opening, before)
       && !Overdraws(t.cfg, ins, t.mkt, Desktop(ins, Run(ins, opening, before), t), t.forecast))
  }

  lemma DesktopAgrees(ins: Instrument, w: World, t: Turn)
    requires ins.Valid()
    ensures var d := Desktop(ins, w, t); d.truth == d.local == w.truth && !d.crashed && d.books == w.books
  {
  }

  /** Over any run, for all outcomes and crashes: a position that starts at the minimum or above, and that close-at-R spares,
      stays there exactly when no cycle's rule overdraws. */
  lemma {:induction false} RunKeepsMinimumIff(ins: Instrument, opening: Holding, ts: seq<Turn>)
    requires ins.Valid() && opening.volume >= ins.minVolume && NeverClosesAtR(ins, opening, ts)
    ensures Run(ins, opening, ts).truth.volume >= ins.minVolume <==> NeverOverdraws(ins, opening, ts)
  {
    hide Cycle, Desktop, Overdraws, CloseFires, R;
    if ts != [] {
      var before := ts[..|ts| - 1];
      var t := ts[|ts| - 1];
      RunKeepsMinimumIff(ins, opening, before);
      var w := Run(ins, opening, before);
      var d := Desktop(ins, w, t);
      DesktopAgrees(ins, w, t);
      if w.truth.volume >= ins.minVolume {
        CycleKeepsMinimumIff(t.cfg, ins, t.mkt, d, t.forecast);
      } else {
        BelowMinimumStays(t.cfg, ins, t.mkt, d, t.forecast);
      }
    }
  }

  /** So without a partial close that takes effect but throws, the minimum is kept whatever else goes wrong. */
  lemma {:induction false} RunKeepsMinimum(ins: Instrument, opening: Holding, ts: seq<Turn>)
    requires ins.Valid() && opening.volume >= ins.minVolume && NeverClosesAtR(ins, opening, ts)
    requires forall t :: t in ts ==> t.forecast.partial != Throws(true)
    ensures NeverOverdraws(ins, opening, ts) && Run(ins, opening, ts).truth.volume >= ins.minVolume
  {
    hide Cycle, Desktop, Overdraws, CloseFires, R;
    if ts != [] {
      var before := ts[..|ts| - 1];
      var t := ts[|ts| - 1];
      RunKeepsMinimum(ins, opening, before);
      var w := Run(ins, opening, before);
      DesktopAgrees(ins, w, t);
      assert t in ts;
      CycleKeepsMinimumIff(t.cfg, ins, t.mkt, Desktop(ins, w, t), t.forecast);
    }
    RunKeepsMinimumIff(ins, opening, ts);
  }

  // ---- Which calls a cycle can send ----

  /** The ledger forgets no key, and no call sent in between has a key in `bad`. */
  ghost predicate NoneSent(b: Books, next: Books, bad: Key -> bool) {
    && (forall key :: key in b.ledger ==> key in next.ledger)
    && b.calls <= next.calls
    && (forall k :: |b.calls| <= k < |next.calls| ==> !bad(next.calls[k].key))
  }

  lemma NoneSentTransitive(a: Books, b: Books, c: Books, bad: Key -> bool)
    requires NoneSent(a, b, bad) && NoneSent(b, c, bad)
    ensures NoneSent(a, c, bad)
  {
    forall k | |a.calls| <= k < |c.calls| ensures !bad(c.calls[k].key) {
      if k < |b.calls| { assert c.calls[k] == b.calls[k]; }
    }
  }

  /** Keys in `bad` that a stage with this kind of action could send are in the ledger already. */
  ghost predicate Spent(b: Books, bad: Key -> bool, kind: Action -> bool) {
    forall key :: bad(key) && kind(key.action) ==> key in b.ledger
  }

  lemma ReducedSends(ins: Instrument, d: Desk, a: Action, volume: int, w: Weather, bad: Key -> bool)
    requires bad(KeyOf(ins, a)) ==> KeyOf(ins, a) in d.books.ledger
    ensures NoneSent(d.books, Reduced(ins, d, a, volume, w).books, bad)
  {
  }

  lemma ProtectedSends(ins: Instrument, d: Desk, a: Action, stop: real, take: real, w: Weather, bad: Key -> bool)
    requires bad(KeyOf(ins, a)) ==> KeyOf(ins, a) in d.books.ledger
    ensures NoneSent(d.books, Protected(ins, d, a, stop, take, w).books, bad)
  {
  }

  lemma AttachSends(cfg: Settings, ins: Instrument, mkt: Market, d: Desk, w: Weather, bad: Key -> bool)
    requires ins.Valid() && Spent(d.books, bad, (a: Action) => a.Protect?)
    ensures NoneSent(d.books, Attached(cfg, ins, mkt, d, w).books, bad)
  {
    hide Protected;
    if cfg.autoAttach && !(d.local.stop > 0.0 && d.local.take > 0.0) {
      var stop := if d.local.stop > 0.0 then d.local.stop else ins.PriceAt(-cfg.slPoints);
      var take := if d.local.take > 0.0 then d.local.take else ins.PriceAt(cfg.tpPoints);
      ProtectedSends(ins, d, Protect(mkt.updatedAt, ins.Ticks(stop), ins.Ticks(take)), stop, take, w, bad);
    }
  }

  lemma PartialSends(cfg: Settings, ins: Instrument, r: Option<real>, d: Desk, w: Weather, bad: Key -> bool)
    requires Spent(d.books, bad, (a: Action) => a.RPartial?)
    ensures NoneSent(d.books, PartiallyClosed(cfg, ins, r, d, w).books, bad)
  {
    hide Reduced, LevelVolume, CloseConfirmed;
    if r.Some? && cfg.levels != [] && cfg.percents != [] && d.local.volume > ins.minVolume {
      var i := NextLevel(cfg.levels, d.memory.mask, r.value, 0);
      if i < |cfg.levels| && i < MAX_LEVELS {
        var volume := LevelVolume(cfg, ins, d, i);
        ReducedSends(ins, d, RPartial(i, volume), volume, w, bad);
      }
    }
  }

  lemma RuleSends(ins: Instrument, mkt: Market, d: Desk, w: Weather, bad: Key -> bool)
    requires ins.Valid() && Spent(d.books, bad, (a: Action) => a.Dynamic?)
    ensures NoneSent(d.books, RuleApplied(ins, mkt, d, w).books, bad)
  {
    hide Reduced, RuleVolume, CloseConfirmed;
    if d.memory.rule.Some? {
      ReducedSends(ins, d, Dynamic(d.memory.rule.value.ruleId), RuleVolume(ins, d, d.memory.rule.value), w, bad);
    }
  }

  lemma BreakEvenSends(cfg: Settings, ins: Instrument, r: Option<real>, d: Desk, w: Weather, bad: Key -> bool)
    requires ins.Valid() && (d.memory.beDone || Spent(d.books, bad, (a: Action) => a.BreakEven?))
    ensures NoneSent(d.books, BrokenEven(cfg, ins, r, d, w).books, bad)
  {
    hide Protected, ProtectionConfirmed, AlreadyBetter;
    if !d.memory.beDone {
      var target := ins.PriceAt(cfg.breakEvenOffsetPoints);
      ProtectedSends(ins, d, BreakEven(ins.Ticks(target)), target, d.local.take, w, bad);
    }
  }

  lemma SpentStays(b: Books, next: Books, bad: Key -> bool, kind: Action -> bool)
    requires Spent(b, bad, kind) && NoneSent(b, next, bad)
    ensures Spent(next, bad, kind)
  {
  }

  /** What the stages behind the attachment can send. */
  ghost predicate SpentBehind(b: Books, bad: Key -> bool, m: Memory) {
    && Spent(b, bad, (a: Action) => a.RPartial?) && Spent(b, bad, (a: Action) => a.Dynamic?)
    && Spent(b, bad, (a: Action) => a.CloseAtR?) && (m.beDone || Spent(b, bad, (a: Action) => a.BreakEven?))
  }

  lemma SpentBehindStays(b: Books, next: Books, bad: Key -> bool, m: Memory, n: Memory)
    requires SpentBehind(b, bad, m) && NoneSent(b, next, bad) && (m.beDone ==> n.beDone)
    ensures SpentBehind(next, bad, n)
  {
    hide Spent, NoneSent;
    SpentStays(b, next, bad, (a: Action) => a.RPartial?);
    SpentStays(b, next, bad, (a: Action) => a.Dynamic?);
    SpentStays(b, next, bad, (a: Action) => a.CloseAtR?);
    if !m.beDone { SpentStays(b, next, bad, (a: Action) => a.BreakEven?); }
  }

  lemma StagesRememberBreakEven(cfg: Settings, ins: Instrument, mkt: Market, r: Option<real>, d: Desk, w: Weather)
    requires ins.Valid()
    ensures PartiallyClosed(cfg, ins, r, d, w).memory.beDone == d.memory.beDone
    ensures RuleApplied(ins, mkt, d, w).memory.beDone == d.memory.beDone
    ensures d.memory.beDone ==> BrokenEven(cfg, ins, r, d, w).memory.beDone
  {
    hide AfterClose, AfterProtect, CloseConfirmed, LevelVolume, RuleVolume, RuleHit;
  }

  /** A cycle sends no call whose key is in `bad`, if every such key that its stages could use is in the ledger. */
  lemma CycleSends(cfg: Settings, ins: Instrument, mkt: Market, start: Desk, f: Forecast, bad: Key -> bool)
    requires ins.Valid() && Spent(start.books, bad, (a: Action) => a.Protect?) && SpentBehind(start.books, bad, start.memory)
    ensures NoneSent(start.books, Cycle(cfg, ins, mkt, start, f).books, bad)
  {
    hide Attached, PartiallyClosed, RuleApplied, BrokenEven, Reduced, R, Spent, NoneSent;
    var d1 := Attached(cfg, ins, mkt, start, f.attach);
    AttachSends(cfg, ins, mkt, start, f.attach, bad);
    AttachKeepsVolume(cfg, ins, mkt, start, f.attach);
    SpentBehindStays(start.books, d1.books, bad, start.memory, d1.memory);
    if !d1.crashed {
      var r := R(ins, mkt, d1.memory);
      if CloseFires(cfg, r) {
        CloseSends(ins, d1, CloseAtR(cfg.closeAtR), d1.local.volume, f.close, bad);
        NoneSentTransitive(start.books, d1.books, Cycle(cfg, ins, mkt, start, f).books, bad);
      } else {
        RestSends(cfg, ins, mkt, r, d1, f, bad);
        NoneSentTransitive(start.books, d1.books, Cycle(cfg, ins, mkt, start, f).books, bad);
      }
    }
  }

  lemma CloseSends(ins: Instrument, d: Desk, a: Action, volume: int, w: Weather, bad: Key -> bool)
    requires a.CloseAtR? && Spent(d.books, bad, (a: Action) => a.CloseAtR?)
    ensures NoneSent(d.books, Reduced(ins, d, a, volume, w).books, bad)
  {
    ReducedSends(ins, d, a, volume, w, bad);
  }

  /** The cycle behind the close at R. */
  function Rest(cfg: Settings, ins: Instrument, mkt: Market, r: Option<real>, d1: Desk, f: Forecast): Desk
    requires ins.Valid()
  {
    var d2 := PartiallyClosed(cfg, ins, r, d1, f.partial);
    if d2.crashed then d2
    else
      var d3 := RuleApplied(ins, mkt, d2, f.rule);
      if d3.crashed then d3 else BrokenEven(cfg, ins, r, d3, f.even)
  }

  lemma RestSends(cfg: Settings, ins: Instrument, mkt: Market, r: Option<real>, d1: Desk, f: Forecast, bad: Key -> bool)
    requires ins.Valid() && SpentBehind(d1.books, bad, d1.memory)
    ensures NoneSent(d1.books, Rest(cfg, ins, mkt, r, d1, f).books, bad)
  {
    hide PartiallyClosed, RuleApplied, BrokenEven, Spent, NoneSent;
    var d2 := PartiallyClosed(cfg, ins, r, d1, f.partial);
    PartialSends(cfg, ins, r, d1, f.partial, bad);
    StagesRememberBreakEven(cfg, ins, mkt, r, d1, f.partial);
    SpentBehindStays(d1.books, d2.books, bad, d1.memory, d2.memory);
    if !d2.crashed {
      TailSends(cfg, ins, mkt, r, d2, f, bad);
      NoneSentTransitive(d1.books, d2.books, Rest(cfg, ins, mkt, r, d1, f).books, bad);
    }
  }

  /** The rule and break-even. */
  function Tail(cfg: Settings, ins: Instrument, mkt: Market, r: Option<real>, d2: Desk, f: Forecast): Desk
    requires ins.Valid()
  {
    var d3 := RuleApplied(ins, mkt, d2, f.rule);
    if d3.crashed then d3 else BrokenEven(cfg, ins, r, d3, f.even)
  }

  lemma TailSends(cfg: Settings, ins: Instrument, mkt: Market, r: Option<real>, d2: Desk, f: Forecast, bad: Key -> bool)
    requires ins.Valid() && Spent(d2.books, bad, (a: Action) => a.Dynamic?)
    requires d2.memory.beDone || Spent(d2.books, bad, (a: Action) => a.BreakEven?)
    ensures NoneSent(d2.books, Tail(cfg, ins, mkt, r, d2, f).books, bad)
  {
    hide RuleApplied, BrokenEven, Spent, NoneSent;
    var d3 := RuleApplied(ins, mkt, d2, f.rule);
    RuleSends(ins, mkt, d2, f.rule, bad);
    StagesRememberBreakEven(cfg, ins, mkt, r, d2, f.rule);
    if !d3.crashed {
      if !d2.memory.beDone { SpentStays(d2.books, d3.books, bad, (a: Action) => a.BreakEven?); }
      BreakEvenSends(cfg, ins, r, d3, f.even, bad);
      NoneSentTransitive(d2.books, d3.books, Tail(cfg, ins, mkt, r, d2, f).books, bad);
    }
  }

  // ---- Keys and break-even over whole runs ----

  lemma TurnSends(ins: Instrument, w: World, t: Turn, bad: Key -> bool)
    requires ins.Valid() && Spent(w.books, bad, (a: Action) => a.Protect?)
    requires SpentBehind(w.books, bad, Desktop(ins, w, t).memory)
    ensures NoneSent(w.books, Turned(ins, w, t).books, bad)
  {
    hide Cycle, Desktop, Spent, SpentBehind, NoneSent;
    DesktopAgrees(ins, w, t);
    CycleSends(t.cfg, ins, t.mkt, Desktop(ins, w, t), t.forecast, bad);
  }

  lemma SpentEverywhere(b: Books, key: Key, m: Memory)
    requires key in b.ledger
    ensures Spent(b, (k: Key) => k == key, (a: Action) => a.Protect?) && SpentBehind(b, (k: Key) => k == key, m)
  {
  }

  /** A key the ledger knows is never sent again, whatever happened to its call. */
  lemma {:induction false} KnownKeyIsNeverSent(ins: Instrument, opening: Holding, ts: seq<Turn>, i: nat, key: Key)
    requires ins.Valid() && i <= |ts| && key in Run(ins, opening, ts[..i]).books.ledger
    ensures NoneSent(Run(ins, opening, ts[..i]).books, Run(ins, opening, ts).books, (k: Key) => k == key)
    ensures key in Run(ins, opening, ts).books.ledger
  {
    hide Turned;
    if i == |ts| {
      assert ts[..i] == ts;
    } else {
      var before := ts[..|ts| - 1];
      var t := ts[|ts| - 1];
      assert before[..i] == ts[..i];
      KnownKeyIsNeverSent(ins, opening, before, i, key);
      var w := Run(ins, opening, before);
      SpentEverywhere(w.books, key, Desktop(ins, w, t).memory);
      TurnSends(ins, w, t, (k: Key) => k == key);
      NoneSentTransitive(Run(ins, opening, ts[..i]).books, w.books, Run(ins, opening, ts).books, (k: Key) => k == key);
    }
  }

  lemma CycleRemembersBreakEven(cfg: Settings, ins: Instrument, mkt: Market, start: Desk, f: Forecast)
    requires ins.Valid() && start.memory.beDone
    ensures Cycle(cfg, ins, mkt, start, f).memory.beDone
  {
    hide Attached, PartiallyClosed, RuleApplied, BrokenEven, R, AfterClose, CloseFires;
    var d1 := Attached(cfg, ins, mkt, start, f.attach);
    AttachKeepsVolume(cfg, ins, mkt, start, f.attach);
    var r := R(ins, mkt, d1.memory);
    StagesRememberBreakEven(cfg, ins, mkt, r, d1, f.partial);
    var d2 := PartiallyClosed(cfg, ins, r, d1, f.partial);
    StagesRememberBreakEven(cfg, ins, mkt, r, d2, f.rule);
    StagesRememberBreakEven(cfg, ins, mkt, r, RuleApplied(ins, mkt, d2, f.rule), f.even);
  }

  lemma TurnRemembersBreakEven(ins: Instrument, w: World, t: Turn)
    requires ins.Valid() && w.stored.Some? && w.stored.value.beDone
    ensures Desktop(ins, w, t).memory.beDone
    ensures Turned(ins, w, t).stored.Some? && Turned(ins, w, t).stored.value.beDone
  {
    hide Cycle;
    CycleRemembersBreakEven(t.cfg, ins, t.mkt, Desktop(ins, w, t), t.forecast);
  }

  lemma BreakEvenIsSpent(b: Books, m: Memory)
    requires m.beDone
    ensures Spent(b, (k: Key) => k.action.BreakEven?, (a: Action) => a.Protect?)
    ensures SpentBehind(b, (k: Key) => k.action.BreakEven?, m)
  {
  }

  /** Once break-even is recorded, no cycle sends a break-even change again, for all outcomes and crashes. */
  lemma {:induction false} BreakEvenIsNeverSentAgain(ins: Instrument, opening: Holding, ts: seq<Turn>, i: nat)
    requires ins.Valid() && i <= |ts|
    requires Run(ins, opening, ts[..i]).stored.Some? && Run(ins, opening, ts[..i]).stored.value.beDone
    ensures NoneSent(Run(ins, opening, ts[..i]).books, Run(ins, opening, ts).books, (k: Key) => k.action.BreakEven?)
    ensures Run(ins, opening, ts).stored.Some? && Run(ins, opening, ts).stored.value.beDone
  {
    hide Turned, Desktop;
    if i == |ts| {
      assert ts[..i] == ts;
    } else {
      var before := ts[..|ts| - 1];
      var t := ts[|ts| - 1];
      assert before[..i] == ts[..i];
      BreakEvenIsNeverSentAgain(ins, opening, before, i);
      var w := Run(ins, opening, before);
      TurnRemembersBreakEven(ins, w, t);
      BreakEvenIsSpent(w.books, Desktop(ins, w, t).memory);
      TurnSends(ins, w, t, (k: Key) => k.action.BreakEven?);
      NoneSentTransitive(Run(ins, opening, ts[..i]).books, w.books, Run(ins, opening, ts).books, (k: Key) => k.action.BreakEven?);
    }
  }

  // ---- Close at R ----

  /** A cycle in which close-at-R fires empties the position exactly when the attachment did not crash, the key of the close
      is new to the ledger, and the call takes effect. */
  lemma CloseAtREmptiesIff(cfg: Settings, ins: Instrument, mkt: Market, start: Desk, f: Forecast)
    requires ins.Valid() && start.truth == start.local && start.truth.volume > 0
    requires CloseFires(cfg, R(ins, mkt, start.memory))
    ensures Cycle(cfg, ins, mkt, start, f).truth.volume == 0 <==>
      && !Attached(cfg, ins, mkt, start, f.attach).crashed
      && KeyOf(ins, CloseAtR(cfg.closeAtR)) !in start.books.ledger && Takes(f.close)
  {
    hide Attached, R, CloseFires, Reduced, Takes, NoneSent;
    var key := KeyOf(ins, CloseAtR(cfg.closeAtR));
    var d1 := Attached(cfg, ins, mkt, start, f.attach);
    AttachKeepsVolume(cfg, ins, mkt, start, f.attach);
    AttachAddsOnlyItsKey(cfg, ins, mkt, start, f.attach, key);
    ReducedVolumes(ins, d1, CloseAtR(cfg.closeAtR), d1.local.volume, f.close);
  }

  lemma AttachAddsOnlyItsKey(cfg: Settings, ins: Instrument, mkt: Market, d: Desk, w: Weather, key: Key)
    requires ins.Valid() && !key.action.Protect?
    ensures key in Attached(cfg, ins, mkt, d, w).books.ledger <==> key in d.books.ledger
  {
  }

  /** Whatever becomes of the call, its key is in the ledger from then on, unless the process dies before recording it. */
  lemma CloseAtRIsRecorded(ins: Instrument, d: Desk, level: real, w: Weather)
    requires !w.CrashEarly?
    ensures KeyOf(ins, CloseAtR(level)) in Reduced(ins, d, CloseAtR(level), d.local.volume, w).books.ledger
  {
  }

  /** A close at R that is in the ledger is never sent again; a turn in which it fires changes nothing about the volume. */
  lemma CloseAtRStaysStuck(ins: Instrument, w: World, t: Turn)
    requires ins.Valid() && CloseFires(t.cfg, R(ins, t.mkt, Desktop(ins, w, t).memory))
    requires KeyOf(ins, CloseAtR(t.cfg.closeAtR)) in w.books.ledger
    ensures Turned(ins, w, t).truth.volume == w.truth.volume
    ensures KeyOf(ins, CloseAtR(t.cfg.closeAtR)) in Turned(ins, w, t).books.ledger
  {
    var key := KeyOf(ins, CloseAtR(t.cfg.closeAtR));
    var d := Desktop(ins, w, t);
    DesktopAgrees(ins, w, t);
    SpentEverywhere(d.books, key, d.memory);
    hide Desktop, Attached, R, CloseFires, Spent;
    var d1 := Attached(t.cfg, ins, t.mkt, d, t.forecast.attach);
    AttachKeepsVolume(t.cfg, ins, t.mkt, d, t.forecast.attach);
    AttachSends(t.cfg, ins, t.mkt, d, t.forecast.attach, (k: Key) => k == key);
    hide Reduced;
    ReducedVolumes(ins, d1, CloseAtR(t.cfg.closeAtR), d1.local.volume, t.forecast.close);
    ReducedSends(ins, d1, CloseAtR(t.cfg.closeAtR), d1.local.volume, t.forecast.close, (k: Key) => k == key);
  }

  // ---- When a level is closed twice ----

  predicate OfLevel(key: Key, i: nat) {
    key.action.RPartial? && key.action.index == i
  }

  /** How many calls of a level took effect. */
  function Closes(calls: seq<Call>, i: nat): nat {
    if calls == [] then 0
    else
      var last := calls[|calls| - 1];
      Closes(calls[..|calls| - 1], i) + if last.applied && OfLevel(last.key, i) then 1 else 0
  }

  lemma {:induction false} NoneSentNoneCounted(b: Books, next: Books, i: nat)
    requires NoneSent(b, next, (k: Key) => OfLevel(k, i))
    ensures Closes(next.calls, i) == Closes(b.calls, i)
    decreases |next.calls|
  {
    if |next.calls| == |b.calls| {
      assert next.calls == b.calls;
    } else {
      var n := |next.calls| - 1;
      var less := next.(calls := next.calls[..n]);
      assert less.calls[..|b.calls|] == next.calls[..|b.calls|] == b.calls;
      forall k | |b.calls| <= k < |less.calls| ensures !OfLevel(less.calls[k].key, i) {
        assert less.calls[k] == next.calls[k];
      }
      NoneSentNoneCounted(b, less, i);
      assert !OfLevel(next.calls[n].key, i);
    }
  }

  /** The partial stage sends a call for level `i`. */
  predicate SendsLevel(cfg: Settings, ins: Instrument, r: Option<real>, d: Desk, i: nat) {
    && r.Some? && cfg.levels != [] && cfg.percents != [] && d.local.volume > ins.minVolume
    && NextLevel(cfg.levels, d.memory.mask, r.value, 0) == i && i < |cfg.levels| && i < MAX_LEVELS
    && LevelVolume(cfg, ins, d, i) > 0 && KeyOf(ins, RPartial(i, LevelVolume(cfg, ins, d, i))) !in d.books.ledger
  }

  lemma ReducedCounts(ins: Instrument, d: Desk, j: nat, volume: int, w: Weather, i: nat)
    ensures
      var after := Reduced(ins, d, RPartial(j, volume), volume, w);
      Closes(after.books.calls, i) == Closes(d.books.calls, i)
        + if i == j && KeyOf(ins, RPartial(j, volume)) !in d.books.ledger && Takes(w) then 1 else 0
  {
    var after := Reduced(ins, d, RPartial(j, volume), volume, w);
    if after.books.calls != d.books.calls {
      assert after.books.calls[..|d.books.calls|] == d.books.calls;
    }
  }

  lemma PartialCounts(cfg: Settings, ins: Instrument, r: Option<real>, d: Desk, w: Weather, i: nat)
    ensures Closes(PartiallyClosed(cfg, ins, r, d, w).books.calls, i) ==
      Closes(d.books.calls, i) + if SendsLevel(cfg, ins, r, d, i) && Takes(w) then 1 else 0
  {
    hide Reduced, LevelVolume, CloseConfirmed, Closes, Takes;
    if r.Some? && cfg.levels != [] && cfg.percents != [] && d.local.volume > ins.minVolume {
      var j := NextLevel(cfg.levels, d.memory.mask, r.value, 0);
      if j < |cfg.levels| && j < MAX_LEVELS {
        ReducedCounts(ins, d, j, LevelVolume(cfg, ins, d, j), w, i);
      }
    }
  }

  /** The cycle closes at level `i`, with effect. */
  predicate ClosesLevel(cfg: Settings, ins: Instrument, mkt: Market, start: Desk, f: Forecast, i: nat)
    requires ins.Valid()
  {
    var d1 := Attached(cfg, ins, mkt, start, f.attach);
    var r := R(ins, mkt, d1.memory);
    !d1.crashed && !CloseFires(cfg, r) && SendsLevel(cfg, ins, r, d1, i) && Takes(f.partial)
  }

  lemma OtherStagesSpareLevels(b: Books, i: nat, m: Memory)
    ensures Spent(b, (k: Key) => OfLevel(k, i), (a: Action) => a.Protect?)
    ensures Spent(b, (k: Key) => OfLevel(k, i), (a: Action) => a.Dynamic?)
    ensures Spent(b, (k: Key) => OfLevel(k, i), (a: Action) => a.CloseAtR?)
    ensures Spent(b, (k: Key) => OfLevel(k, i), (a: Action) => a.BreakEven?)
  {
  }

  lemma CycleCounts(cfg: Settings, ins: Instrument, mkt: Market, start: Desk, f: Forecast, i: nat)
    requires ins.Valid()
    ensures Closes(Cycle(cfg, ins, mkt, start, f).books.calls, i) ==
      Closes(start.books.calls, i) + if ClosesLevel(cfg, ins, mkt, start, f, i) then 1 else 0
  {
    hide Attached, PartiallyClosed, RuleApplied, BrokenEven, Reduced, R, Spent, NoneSent, Closes, SendsLevel, CloseFires, Takes;
    var bad := (k: Key) => OfLevel(k, i);
    var d1 := Attached(cfg, ins, mkt, start, f.attach);
    OtherStagesSpareLevels(start.books, i, start.memory);
    AttachSends(cfg, ins, mkt, start, f.attach, bad);
    NoneSentNoneCounted(start.books, d1.books, i);
    OtherStagesSpareLevels(d1.books, i, d1.memory);
    var r := R(ins, mkt, d1.memory);
    if !d1.crashed && CloseFires(cfg, r) {
      CloseSends(ins, d1, CloseAtR(cfg.closeAtR), d1.local.volume, f.close, bad);
      NoneSentNoneCounted(d1.books, Cycle(cfg, ins, mkt, start, f).books, i);
    } else if !d1.crashed {
      var d2 := PartiallyClosed(cfg, ins, r, d1, f.partial);
      PartialCounts(cfg, ins, r, d1, f.partial, i);
      OtherStagesSpareLevels(d2.books, i, d2.memory);
      TailSends(cfg, ins, mkt, r, d2, f, bad);
      NoneSentNoneCounted(d2.books, Tail(cfg, ins, mkt, r, d2, f).books, i);
    }
  }

  lemma LaterStagesKeepMask(cfg: Settings, ins: Instrument, mkt: Market, r: Option<real>, d: Desk, f: Forecast)
    requires ins.Valid()
    ensures Tail(cfg, ins, mkt, r, d, f).memory.mask == d.memory.mask
  {
    hide AfterClose, AfterProtect, CloseConfirmed, ProtectionConfirmed, RuleVolume, RuleHit, AlreadyBetter;
  }

  /** What the partial stage marks. */
  lemma PartialMarks(cfg: Settings, ins: Instrument, r: Option<real>, d: Desk, w: Weather, i: nat)
    ensures d.memory.mask <= PartiallyClosed(cfg, ins, r, d, w).memory.mask
    ensures SendsLevel(cfg, ins, r, d, i) ==>
      i !in d.memory.mask && PartiallyClosed(cfg, ins, r, d, w).memory.mask == if w.Smooth? then d.memory.mask + {i} else d.memory.mask
  {
    hide LevelVolume;
  }

  /** A cycle forgets no mark, and marks the level it closes if its partial close is confirmed. */
  lemma CycleMarks(cfg: Settings, ins: Instrument, mkt: Market, start: Desk, f: Forecast, i: nat)
    requires ins.Valid()
    ensures start.memory.mask <= Cycle(cfg, ins, mkt, start, f).memory.mask
    ensures ClosesLevel(cfg, ins, mkt, start, f, i) ==>
      i !in start.memory.mask && (i in Cycle(cfg, ins, mkt, start, f).memory.mask <==> f.partial.Smooth?)
  {
    hide Attached, PartiallyClosed, RuleApplied, BrokenEven, Reduced, R, CloseFires, SendsLevel, Takes;
    var d1 := Attached(cfg, ins, mkt, start, f.attach);
    AttachKeepsVolume(cfg, ins, mkt, start, f.attach);
    var r := R(ins, mkt, d1.memory);
    ReducedVolumes(ins, d1, CloseAtR(cfg.closeAtR), d1.local.volume, f.close);
    PartialMarks(cfg, ins, r, d1, f.partial, i);
    LaterStagesKeepMask(cfg, ins, mkt, r, PartiallyClosed(cfg, ins, r, d1, f.partial), f);
  }

  /** The stored marks. */
  function Marks(w: World): set<nat> {
    if w.stored.Some? then w.stored.value.mask else {}
  }

  predicate TurnCloses(ins: Instrument, w: World, t: Turn, i: nat)
    requires ins.Valid()
  {
    ClosesLevel(t.cfg, ins, t.mkt, Desktop(ins, w, t), t.forecast, i)
  }

  lemma DesktopMarks(ins: Instrument, w: World, t: Turn)
    requires ins.Valid()
    ensures Desktop(ins, w, t).memory.mask == Marks(w)
  {
  }

  lemma TurnMarks(ins: Instrument, w: World, t: Turn, i: nat)
    requires ins.Valid()
    ensures Marks(w) <= Marks(Turned(ins, w, t))
    ensures TurnCloses(ins, w, t, i) ==> i !in Marks(w)
  {
    hide Cycle, Desktop, ClosesLevel;
    DesktopMarks(ins, w, t);
    CycleMarks(t.cfg, ins, t.mkt, Desktop(ins, w, t), t.forecast, i);
  }

  /** The turn closes at the level, with effect, and the stored marks do not show it. */
  predicate LosesMark(ins: Instrument, w: World, t: Turn, i: nat)
    requires ins.Valid()
  {
    TurnCloses(ins, w, t, i) && i !in Marks(Turned(ins, w, t))
  }

  /** A turn loses the mark of the level it closes exactly when the close is not confirmed, or the process dies in a later
      stage or before the state is saved. */
  lemma LosesMarkIff(ins: Instrument, w: World, t: Turn, i: nat)
    requires ins.Valid() && TurnCloses(ins, w, t, i)
    ensures LosesMark(ins, w, t, i) <==>
      !t.forecast.partial.Smooth? || Cycle(t.cfg, ins, t.mkt, Desktop(ins, w, t), t.forecast).crashed || !t.forecast.saves
  {
    hide Cycle, Desktop, ClosesLevel;
    DesktopMarks(ins, w, t);
    CycleMarks(t.cfg, ins, t.mkt, Desktop(ins, w, t), t.forecast, i);
  }

  lemma TurnCounts(ins: Instrument, w: World, t: Turn, i: nat)
    requires ins.Valid()
    ensures Closes(Turned(ins, w, t).books.calls, i) == Closes(w.books.calls, i) + if TurnCloses(ins, w, t, i) then 1 else 0
  {
    hide Cycle, Desktop, ClosesLevel, Closes;
    DesktopAgrees(ins, w, t);
    CycleCounts(t.cfg, ins, t.mkt, Desktop(ins, w, t), t.forecast, i);
  }

  lemma {:induction false} MarksStay(ins: Instrument, opening: Holding, ts: seq<Turn>, k: nat)
    requires ins.Valid() && k <= |ts|
    ensures Marks(Run(ins, opening, ts[..k])) <= Marks(Run(ins, opening, ts))
  {
    hide Turned, Marks;
    if k == |ts| {
      assert ts[..k] == ts;
    } else {
      var before := ts[..|ts| - 1];
      assert before[..k] == ts[..k];
      MarksStay(ins, opening, before, k);
      TurnMarks(ins, Run(ins, opening, before), ts[|ts| - 1], 0);
    }
  }

  lemma {:induction false} ClosesStay(ins: Instrument, opening: Holding, ts: seq<Turn>, k: nat, i: nat)
    requires ins.Valid() && k <= |ts|
    ensures Closes(Run(ins, opening, ts[..k]).books.calls, i) <= Closes(Run(ins, opening, ts).books.calls, i)
  {
    hide Turned, Closes;
    if k == |ts| {
      assert ts[..k] == ts;
    } else {
      var before := ts[..|ts| - 1];
      assert before[..k] == ts[..k];
      ClosesStay(ins, opening, before, k, i);
      TurnCounts(ins, Run(ins, opening, before), ts[|ts| - 1], i);
    }
  }

  lemma OneTurnMore(ins: Instrument, opening: Holding, ts: seq<Turn>, k: nat)
    requires ins.Valid() && k < |ts|
    ensures Run(ins, opening, ts[..k + 1]) == Turned(ins, Run(ins, opening, ts[..k]), ts[k])
  {
    assert ts[..k + 1][..k] == ts[..k];
  }

  lemma NothingClosedYet(ins: Instrument, opening: Holding, i: nat)
    requires ins.Valid()
    ensures Closes(Run(ins, opening, []).books.calls, i) == 0
  {
  }

  /** A close at a level belongs to some turn. */
  lemma {:induction false} FindClose(ins: Instrument, opening: Holding, ts: seq<Turn>, i: nat) returns (k: nat)
    requires ins.Valid() && Closes(Run(ins, opening, ts).books.calls, i) > 0
    ensures k < |ts| && TurnCloses(ins, Run(ins, opening, ts[..k]), ts[k], i)
  {
    hide Turned, TurnCloses;
    NothingClosedYet(ins, opening, i);
    assert ts != [];
    var n := |ts| - 1;
    var before := ts[..n];
    TurnCounts(ins, Run(ins, opening, before), ts[n], i);
    if TurnCloses(ins, Run(ins, opening, before), ts[n], i) {
      k := n;
    } else {
      k := FindClose(ins, opening, before, i);
      assert before[..k] == ts[..k];
    }
  }

  /** Turn `k` closes at the level and loses the mark, and turn `m` closes at it again. */
  predicate Repeats(ins: Instrument, opening: Holding, ts: seq<Turn>, i: nat, k: nat, m: nat)
    requires ins.Valid()
  {
    k < m < |ts| && LosesMark(ins, Run(ins, opening, ts[..k]), ts[k], i) && TurnCloses(ins, Run(ins, opening, ts[..m]), ts[m], i)
  }

  lemma {:induction false} FindRepeat(ins: Instrument, opening: Holding, ts: seq<Turn>, i: nat) returns (k: nat, m: nat)
    requires ins.Valid() && Closes(Run(ins, opening, ts).books.calls, i) > 1
    ensures Repeats(ins, opening, ts, i, k, m)
  {
    hide Turned, TurnCloses, Marks;
    NothingClosedYet(ins, opening, i);
    assert ts != [];
    var n := |ts| - 1;
    var before := ts[..n];
    TurnCounts(ins, Run(ins, opening, before), ts[n], i);
    if TurnCloses(ins, Run(ins, opening, before), ts[n], i) {
      m := n;
      k := FindClose(ins, opening, before, i);
      assert before[..k] == ts[..k] && before[..k + 1] == ts[..k + 1];
      TurnMarks(ins, Run(ins, opening, before), ts[n], i);
      MarksStay(ins, opening, before, k + 1);
      OneTurnMore(ins, opening, ts, k);
    } else {
      k, m := FindRepeat(ins, opening, before, i);
      assert before[..k] == ts[..k] && before[..m] == ts[..m];
    }
  }

  lemma RepeatCounts(ins: Instrument, opening: Holding, ts: seq<Turn>, i: nat, k: nat, m: nat)
    requires ins.Valid() && Repeats(ins, opening, ts, i, k, m)
    ensures Closes(Run(ins, opening, ts).books.calls, i) > 1
  {
    hide Turned, TurnCloses, Marks, Closes;
    OneTurnMore(ins, opening, ts, k);
    TurnCounts(ins, Run(ins, opening, ts[..k]), ts[k], i);
    assert ts[..m][..k + 1] == ts[..k + 1];
    ClosesStay(ins, opening, ts[..m], k + 1, i);
    OneTurnMore(ins, opening, ts, m);
    TurnCounts(ins, Run(ins, opening, ts[..m]), ts[m], i);
    ClosesStay(ins, opening, ts, m + 1, i);
  }

  /** The level is due: reached, the first without a stored mark, with a positive volume whose key is not in the ledger; and
      close-at-R does not come first. */
  predicate LevelDue(ins: Instrument, w: World, t: Turn, i: nat)
    requires ins.Valid()
  {
    var d := Desktop(ins, w, t);
    var r := R(ins, t.mkt, d.memory);
    && r.Some? && !CloseFires(t.cfg, r) && t.cfg.percents != [] && w.truth.volume > ins.minVolume
    && i < |t.cfg.levels| && i < MAX_LEVELS && NextLevel(t.cfg.levels, d.memory.mask, r.value, 0) == i
    && LevelVolume(t.cfg, ins, d, i) > 0 && KeyOf(ins, RPartial(i, LevelVolume(t.cfg, ins, d, i))) !in w.books.ledger
  }

  /** The weather lets the level's call through: the attachment survives and the call takes effect. */
  predicate LetsThrough(ins: Instrument, w: World, t: Turn)
    requires ins.Valid()
  {
    !Attached(t.cfg, ins, t.mkt, Desktop(ins, w, t), t.forecast.attach).crashed && Takes(t.forecast.partial)
  }

  lemma AttachKeepsPartialVolume(cfg: Settings, ins: Instrument, mkt: Market, d: Desk, w: Weather, i: nat)
    requires ins.Valid()
    ensures LevelVolume(cfg, ins, Attached(cfg, ins, mkt, d, w), i) == LevelVolume(cfg, ins, d, i)
  {
    AttachKeepsVolume(cfg, ins, mkt, d, w);
    hide Attached;
  }

  lemma TurnClosesIff(ins: Instrument, w: World, t: Turn, i: nat)
    requires ins.Valid()
    ensures TurnCloses(ins, w, t, i) <==> LevelDue(ins, w, t, i) && LetsThrough(ins, w, t)
  {
    hide Attached, Desktop, R, CloseFires, LevelVolume, Takes, NextLevel;
    var d := Desktop(ins, w, t);
    DesktopAgrees(ins, w, t);
    AttachKeepsVolume(t.cfg, ins, t.mkt, d, t.forecast.attach);
    AttachKeepsPartialVolume(t.cfg, ins, t.mkt, d, t.forecast.attach, i);
    AttachAddsOnlyItsKey(t.cfg, ins, t.mkt, d, t.forecast.attach, KeyOf(ins, RPartial(i, LevelVolume(t.cfg, ins, d, i))));
  }

  /** What the close leaves behind is lost: it is not confirmed, or the process dies before the state is saved. */
  predicate Forgets(ins: Instrument, w: World, t: Turn)
    requires ins.Valid()
  {
    !t.forecast.partial.Smooth? || Cycle(t.cfg, ins, t.mkt, Desktop(ins, w, t), t.forecast).crashed || !t.forecast.saves
  }

  /** Turn `k` lets a due level through and forgets it, and at turn `m` the level is due and let through again. */
  predicate DueAgain(ins: Instrument, opening: Holding, ts: seq<Turn>, i: nat, k: nat, m: nat)
    requires ins.Valid()
  {
    && k < m < |ts|
    && LevelDue(ins, Run(ins, opening, ts[..k]), ts[k], i) && LetsThrough(ins, Run(ins, opening, ts[..k]), ts[k])
    && Forgets(ins, Run(ins, opening, ts[..k]), ts[k])
    && LevelDue(ins, Run(ins, opening, ts[..m]), ts[m], i) && LetsThrough(ins, Run(ins, opening, ts[..m]), ts[m])
  }

  lemma RepeatsIff(ins: Instrument, opening: Holding, ts: seq<Turn>, i: nat, k: nat, m: nat)
    requires ins.Valid()
    ensures Repeats(ins, opening, ts, i, k, m) <==> DueAgain(ins, opening, ts, i, k, m)
  {
    hide Run, LevelDue, LetsThrough, TurnCloses, Marks, Turned;
    if k < m < |ts| {
      var w := Run(ins, opening, ts[..k]);
      TurnClosesIff(ins, w, ts[k], i);
      TurnClosesIff(ins, Run(ins, opening, ts[..m]), ts[m], i);
      if TurnCloses(ins, w, ts[k], i) { LosesMarkIff(ins, w, ts[k], i); }
      hide Forgets;
    }
  }

  /** Over any run, for all outcomes and crashes: a level is closed more than once, with effect, exactly when at some turn it
      is due and let through but forgotten, and at a later turn it is due and let through again. */
  lemma LevelClosedTwiceIff(ins: Instrument, opening: Holding, ts: seq<Turn>, i: nat)
    requires ins.Valid()
    ensures Closes(Run(ins, opening, ts).books.calls, i) > 1 <==> exists k, m :: DueAgain(ins, opening, ts, i, k, m)
  {
    hide Repeats, DueAgain, Run, Closes;
    if Closes(Run(ins, opening, ts).books.calls, i) > 1 {
      var k, m := FindRepeat(ins, opening, ts, i);
      RepeatsIff(ins, opening, ts, i, k, m);
    }
    if k: nat, m: nat :| DueAgain(ins, opening, ts, i, k, m) {
      RepeatsIff(ins, opening, ts, i, k, m);
      RepeatCounts(ins, opening, ts, i, k, m);
    }
  }

  const HALVING_AT_EVEN := Settings(false, 10.0, 10.0, 0.0, [1.0], [50.0], 1.0, 0.0)
  const CALM := Market(Some(120.0), None, 0)
  const DIES_AT_EVEN := Turn(HALVING_AT_EVEN, CALM, None, Forecast(Smooth, Smooth, Smooth, Smooth, CrashEarly, true))
  const LIVES := Turn(HALVING_AT_EVEN, CALM, None, Forecast(Smooth, Smooth, Smooth, Smooth, Smooth, true))
  const UNMARKED := Memory(10.0, 80, {}, false, None)

  /** A confirmed close is repeated too: the process dies while it moves the stop to break-even, the mark is lost, and the
      next cycle closes the level again under another key. */
  lemma LostMarkClosesLevelTwice()
    ensures
      var opening := Holding(80, 0.0, 0.0);
      && Repeats(EXAMPLE, opening, [DIES_AT_EVEN, LIVES], 0, 0, 1)
      && Run(EXAMPLE, opening, [DIES_AT_EVEN, LIVES]).truth.volume == 20
  {
    hide Turned, TurnCloses, LosesMark, Run;
    var opening := Holding(80, 0.0, 0.0);
    var ts := [DIES_AT_EVEN, LIVES];
    var w0 := Run(EXAMPLE, opening, ts[..0]);
    var w1 := Run(EXAMPLE, opening, ts[..1]);
    assert ts[..2] == ts;
    EmptyRun(opening);
    OneTurnMore(EXAMPLE, opening, ts, 0);
    OneTurnMore(EXAMPLE, opening, ts, 1);
    FirstTurn(w0);
    SecondTurn(w1);
  }

  lemma EmptyRun(opening: Holding)
    ensures Run(EXAMPLE, opening, []) == World(Books(map[], []), opening, None)
  {
  }

  lemma FirstTurn(w: World)
    requires w == World(Books(map[], []), Holding(80, 0.0, 0.0), None)
    ensures LosesMark(EXAMPLE, w, DIES_AT_EVEN, 0)
    ensures
      var next := Turned(EXAMPLE, w, DIES_AT_EVEN);
      && next.truth == Holding(40, 0.0, 0.0) && next.stored == Some(UNMARKED)
      && KeyOf(EXAMPLE, RPartial(0, 20)) !in next.books.ledger
  {
    hide R, CloseFires, PartiallyClosed, BrokenEven;
    var d := Desk(w.books, w.truth, w.truth, UNMARKED, false);
    assert Desktop(EXAMPLE, w, DIES_AT_EVEN) == d;
    FirstLevelDue(d);
    assert RequestedRaw(80, 50.0, 10) == 40;
    LevelCloses(d, 40);
    EvenCrashes(PartiallyClosed(HALVING_AT_EVEN, EXAMPLE, Some(2.0), d, Smooth));
  }

  lemma SecondTurn(w: World)
    requires w.truth == Holding(40, 0.0, 0.0) && w.stored == Some(UNMARKED) && KeyOf(EXAMPLE, RPartial(0, 20)) !in w.books.ledger
    ensures TurnCloses(EXAMPLE, w, LIVES, 0) && Turned(EXAMPLE, w, LIVES).truth.volume == 20
  {
    hide R, CloseFires, PartiallyClosed, BrokenEven;
    var d := Desk(w.books, w.truth, w.truth, UNMARKED, false);
    assert Desktop(EXAMPLE, w, LIVES) == d;
    FirstLevelDue(d);
    assert RequestedRaw(40, 50.0, 10) == 20;
    LevelCloses(d, 20);
    BreakEvenKeepsVolume(HALVING_AT_EVEN, EXAMPLE, Some(2.0), PartiallyClosed(HALVING_AT_EVEN, EXAMPLE, Some(2.0), d, Smooth), Smooth);
  }

  lemma FirstLevelDue(d: Desk)
    requires d.memory == UNMARKED
    ensures NextLevel(HALVING_AT_EVEN.levels, d.memory.mask, 2.0, 0) == 0
    ensures R(EXAMPLE, CALM, d.memory) == Some(2.0) && !CloseFires(HALVING_AT_EVEN, Some(2.0))
  {
  }

  /** Half of the volume is due at the first level, and the close goes through. */
  lemma LevelCloses(d: Desk, half: int)
    requires d.memory == UNMARKED && d.truth == d.local && d.local.volume == 2 * half && !d.crashed
    requires (half == 20 || half == 40) && RequestedRaw(2 * half, 50.0, 10) == half
    requires KeyOf(EXAMPLE, RPartial(0, half)) !in d.books.ledger
    ensures SendsLevel(HALVING_AT_EVEN, EXAMPLE, Some(2.0), d, 0)
    ensures
      var after := PartiallyClosed(HALVING_AT_EVEN, EXAMPLE, Some(2.0), d, Smooth);
      && after.memory == Marked(UNMARKED, 0) && !after.crashed && after.truth == after.local == d.truth.(volume := half)
      && (forall key :: key in after.books.ledger ==> key in d.books.ledger || key.action == RPartial(0, half))
  {
    FirstLevelDue(d);
    assert LevelVolume(HALVING_AT_EVEN, EXAMPLE, d, 0) == half;
  }

  lemma EvenCrashes(d: Desk)
    requires d.memory == Marked(UNMARKED, 0) && d.local == d.truth == Holding(40, 0.0, 0.0) && !d.crashed
    requires forall key :: key in d.books.ledger ==> key.action == RPartial(0, 40)
    ensures
      var after := BrokenEven(HALVING_AT_EVEN, EXAMPLE, Some(2.0), d, CrashEarly);
      after.crashed && after.truth == d.truth && KeyOf(EXAMPLE, RPartial(0, 20)) !in after.books.ledger
  {
  }
}
