/** What every management cycle, and every sequence of cycles, keeps. */
module PositionSafety {
  import opened Common
  import opened ManagerDomain
  import opened MutationLedger
  import opened PositionManager

  // ---- Outcomes that either confirm or have no effect ----

  predicate Honest(w: Weather) {
    w.Smooth? || (w.Throws? && !w.applied)
  }

  predicate HonestForecast(f: Forecast) {
    Honest(f.attach) && Honest(f.close) && Honest(f.partial) && Honest(f.rule) && Honest(f.even) && f.saves
  }

  predicate RuleAligned(ins: Instrument, m: Memory)
    requires ins.Valid()
  {
    m.rule.Some? ==> m.rule.value.volumeRaw % ins.stepVolume == 0
  }

  predicate IsPartial(a: Action) { a.RPartial? || a.Dynamic? }

  /** Every partial close sent is a multiple of the step and at least the minimum volume. */
  ghost predicate PartialsFit(ins: Instrument, b: Books)
    requires ins.Valid()
  {
    forall i :: 0 <= i < |b.calls| && IsPartial(b.calls[i].key.action) ==>
      b.calls[i].volume % ins.stepVolume == 0 && b.calls[i].volume >= ins.minVolume
  }

  /** The applied calls of one R level, or of break-even, are at most one, and the memory records it. */
  ghost predicate ConfirmedOnce(b: Books, m: Memory) {
    && (forall i :: 0 <= i < |b.calls| && b.calls[i].applied && b.calls[i].key.action.RPartial? ==> b.calls[i].key.action.index in m.mask)
    && (forall i :: 0 <= i < |b.calls| && b.calls[i].applied && b.calls[i].key.action.BreakEven? ==> m.beDone)
    && (forall i, j :: 0 <= i < j < |b.calls| && b.calls[i].applied && b.calls[j].applied ==>
          && (b.calls[i].key.action.RPartial? && b.calls[j].key.action.RPartial? ==>
                b.calls[i].key.action.index != b.calls[j].key.action.index)
          && !(b.calls[i].key.action.BreakEven? && b.calls[j].key.action.BreakEven?))
  }

  /** The local copy agrees with the broker, nothing crashed, and the books are in order. */
  ghost predicate Orderly(ins: Instrument, d: Desk)
    requires ins.Valid()
  {
    && !d.crashed && d.truth == d.local
    && RuleAligned(ins, d.memory) && PartialsFit(ins, d.books) && ConfirmedOnce(d.books, d.memory)
  }

  /** A volume the manager may leave: unchanged, or at least the minimum. */
  predicate VolumeKept(ins: Instrument, before: int, after: int) {
    after == before || after >= ins.minVolume
  }

  /** `c` is the one call made between two desks. */
  ghost predicate SentOnce(before: Desk, after: Desk, c: Call) {
    after.books.calls == before.books.calls + [c]
  }

  /** An honest protection mutation sends at most one call, and confirms it if it took effect. */
  lemma HonestProtection(ins: Instrument, d: Desk, a: Action, stop: real, take: real, w: Weather)
    requires Honest(w) && d.truth == d.local
    ensures
      var after := Protected(ins, d, a, stop, take, w);
      && !after.crashed && after.truth == after.local && after.memory == d.memory && after.truth.volume == d.truth.volume
      && (after.books.calls == d.books.calls
          || exists c: Call :: SentOnce(d, after, c) && c.key.action == a
                               && (c.applied ==> ProtectionConfirmed(ins, d, a, stop, take, w)))
  {
    var after := Protected(ins, d, a, stop, take, w);
    if after.books.calls != d.books.calls {
      var c := after.books.calls[|d.books.calls|];
      assert SentOnce(d, after, c);
    }
  }

  /** An honest close sends at most one call, for the volume asked, and confirms it if it took effect. */
  lemma HonestClose(ins: Instrument, d: Desk, a: Action, volume: int, w: Weather)
    requires Honest(w) && d.truth == d.local && volume <= d.truth.volume
    ensures
      var after := Reduced(ins, d, a, volume, w);
      && !after.crashed && after.truth == after.local && after.memory == d.memory
      && (after.truth.volume == d.truth.volume || after.truth.volume == d.truth.volume - volume)
      && (after.books.calls == d.books.calls
          || exists c: Call :: SentOnce(d, after, c) && c.key.action == a && c.volume == volume
                               && (c.applied ==> CloseConfirmed(ins, d, a, volume, w)))
  {
    var after := Reduced(ins, d, a, volume, w);
    if after.books.calls != d.books.calls {
      var c := after.books.calls[|d.books.calls|];
      assert SentOnce(d, after, c);
    }
  }

  lemma AttachOrderly(cfg: Settings, ins: Instrument, mkt: Market, d: Desk, w: Weather)
    requires ins.Valid() && Orderly(ins, d) && Honest(w)
    ensures Orderly(ins, Attached(cfg, ins, mkt, d, w))
    ensures Attached(cfg, ins, mkt, d, w).truth.volume == d.truth.volume
    ensures Attached(cfg, ins, mkt, d, w).memory == d.memory
  {
    hide Protected, ProtectionConfirmed;
    if cfg.autoAttach && !(d.local.stop > 0.0 && d.local.take > 0.0) {
      var stop := if d.local.stop > 0.0 then d.local.stop else ins.PriceAt(-cfg.slPoints);
      var take := if d.local.take > 0.0 then d.local.take else ins.PriceAt(cfg.tpPoints);
      HonestProtection(ins, d, Protect(mkt.updatedAt, ins.Ticks(stop), ins.Ticks(take)), stop, take, w);
    }
  }

  lemma PartialOrderly(cfg: Settings, ins: Instrument, r: Option<real>, d: Desk, w: Weather)
    requires ins.Valid() && Orderly(ins, d) && Honest(w)
    ensures Orderly(ins, PartiallyClosed(cfg, ins, r, d, w))
    ensures VolumeKept(ins, d.truth.volume, PartiallyClosed(cfg, ins, r, d, w).truth.volume)
  {
    if r.Some? && cfg.levels != [] && cfg.percents != [] && d.local.volume > ins.minVolume {
      var i := NextLevel(cfg.levels, d.memory.mask, r.value, 0);
      if i < |cfg.levels| && i < MAX_LEVELS {
        var volume := LevelVolume(cfg, ins, d, i);
        PartialCloseFits(d.local.volume, d.memory.originalVolume, PercentFor(cfg, i), ins.minVolume, ins.stepVolume, |cfg.percents| > 1);
        LevelOrderly(ins, d, i, volume, w);
      }
    }
  }

  lemma LevelOrderly(ins: Instrument, d: Desk, i: nat, volume: int, w: Weather)
    requires ins.Valid() && Orderly(ins, d) && Honest(w) && i !in d.memory.mask
    requires volume > 0 ==> volume % ins.stepVolume == 0 && volume >= ins.minVolume && d.local.volume - volume >= ins.minVolume
    ensures Orderly(ins, LevelHandled(ins, d, i, volume, w))
    ensures VolumeKept(ins, d.truth.volume, LevelHandled(ins, d, i, volume, w).truth.volume)
  {
    hide Reduced, CloseConfirmed;
    if volume > 0 { HonestClose(ins, d, RPartial(i, volume), volume, w); }
  }

  lemma RuleOrderly(ins: Instrument, mkt: Market, d: Desk, w: Weather)
    requires ins.Valid() && Orderly(ins, d) && Honest(w)
    ensures Orderly(ins, RuleApplied(ins, mkt, d, w))
    ensures VolumeKept(ins, d.truth.volume, RuleApplied(ins, mkt, d, w).truth.volume)
  {
    hide Reduced, CloseConfirmed;
    if d.memory.rule.Some? && d.local.volume > ins.minVolume {
      var rule := d.memory.rule.value;
      var volume := RuleVolume(ins, d, rule);
      MultipleOf(MaxInt(0, d.local.volume - ins.minVolume) / ins.stepVolume, ins.stepVolume);
      if volume >= ins.minVolume { HonestClose(ins, d, Dynamic(rule.ruleId), volume, w); }
    }
  }

  lemma BreakEvenOrderly(cfg: Settings, ins: Instrument, r: Option<real>, d: Desk, w: Weather)
    requires ins.Valid() && Orderly(ins, d) && Honest(w)
    ensures Orderly(ins, BrokenEven(cfg, ins, r, d, w))
    ensures BrokenEven(cfg, ins, r, d, w).truth.volume == d.truth.volume
  {
    hide Protected, ProtectionConfirmed, AlreadyBetter;
    if r.Some? && !d.memory.beDone {
      var target := ins.PriceAt(cfg.breakEvenOffsetPoints);
      HonestProtection(ins, d, BreakEven(ins.Ticks(target)), target, d.local.take, w);
    }
  }

  lemma CloseAllOrderly(ins: Instrument, d: Desk, level: real, w: Weather)
    requires ins.Valid() && Orderly(ins, d) && Honest(w)
    ensures Orderly(ins, Reduced(ins, d, CloseAtR(level), d.local.volume, w))
  {
    hide Reduced, CloseConfirmed;
    HonestClose(ins, d, CloseAtR(level), d.local.volume, w);
  }

  /** One cycle with outcomes that confirm or have no effect: every partial close fits the step and the minimum,
      each level and break-even are confirmed at most once, and, unless close-at-R fires, the volume stays as it
      was or at least at the minimum. */
  lemma CycleOrderly(cfg: Settings, ins: Instrument, mkt: Market, start: Desk, f: Forecast)
    requires ins.Valid() && Orderly(ins, start) && HonestForecast(f)
    ensures Orderly(ins, Cycle(cfg, ins, mkt, start, f))
    ensures !CloseFires(cfg, R(ins, mkt, start.memory)) ==> VolumeKept(ins, start.truth.volume, Cycle(cfg, ins, mkt, start, f).truth.volume)
  {
    hide Attached, PartiallyClosed, RuleApplied, BrokenEven, Reduced, PartialsFit, ConfirmedOnce, RuleAligned, R;
    var d1 := Attached(cfg, ins, mkt, start, f.attach);
    AttachOrderly(cfg, ins, mkt, start, f.attach);
    var r := R(ins, mkt, start.memory);
    if CloseFires(cfg, r) {
      CloseAllOrderly(ins, d1, cfg.closeAtR, f.close);
    } else {
      PartialOrderly(cfg, ins, r, d1, f.partial);
      var d2 := PartiallyClosed(cfg, ins, r, d1, f.partial);
      RuleOrderly(ins, mkt, d2, f.rule);
      BreakEvenOrderly(cfg, ins, r, RuleApplied(ins, mkt, d2, f.rule), f.even);
    }
  }

  // ---- Whole runs ----

  /** Arming a dynamic partial: the volume must map to the broker's steps and leave the minimum open. */
  datatype Arming = Arming(ruleId: string, byProfit: bool, threshold: real, lots: real, lotSize: real, maxVolume: int)

  function Armed(ins: Instrument, truth: Holding, m: Memory, a: Arming): Memory
    requires ins.Valid()
  {
    var v := LotsToProtocolVolume(a.lots, VolumeMeta(a.lotSize, ins.minVolume, a.maxVolume, ins.stepVolume));
    if !v.Volume? || v.raw >= truth.volume || truth.volume - v.raw < ins.minVolume then m
    else if m.rule.Some? && m.rule.value.ruleId == a.ruleId then m
    else m.(rule := Some(Rule(a.ruleId, a.byProfit, a.threshold, v.raw)))
  }

  /** One cycle of a run, with an optional arming before it; settings and market may change each time. */
  datatype Turn = Turn(cfg: Settings, mkt: Market, arm: Option<Arming>, forecast: Forecast)

  datatype World = World(books: Books, truth: Holding, stored: Option<Memory>)

  function Desktop(ins: Instrument, w: World, t: Turn): Desk
    requires ins.Valid()
  {
    var d := Opened(t.cfg, ins, w.books, w.truth, w.stored);
    if t.arm.Some? then d.(memory := Armed(ins, w.truth, d.memory, t.arm.value)) else d
  }

  function Turned(ins: Instrument, w: World, t: Turn): World
    requires ins.Valid()
  {
    var start := Desktop(ins, w, t);
    var end := Cycle(t.cfg, ins, t.mkt, start, t.forecast);
    World(end.books, end.truth, Some(Saved(start, end, t.forecast)))
  }

  function Run(ins: Instrument, opening: Holding, ts: seq<Turn>): World
    requires ins.Valid()
  {
    if ts == [] then World(Books(map[], []), opening, None)
    else Turned(ins, Run(ins, opening, ts[..|ts| - 1]), ts[|ts| - 1])
  }

  /** Close-at-R fires in no cycle of the run. */
  predicate NeverClosesAtR(ins: Instrument, opening: Holding, ts: seq<Turn>)
    requires ins.Valid()
  {
    ts == [] ||
      (var before := ts[..|ts| - 1];
       var t := ts[|ts| - 1];
       NeverClosesAtR(ins, opening, before)
       && !CloseFires(t.cfg, R(ins, t.mkt, Desktop(ins, Run(ins, opening, before), t).memory)))
  }

  ghost predicate WorldOrderly(ins: Instrument, w: World)
    requires ins.Valid()
  {
    && PartialsFit(ins, w.books)
    && (w.stored.None? ==> w.books.calls == [])
    && (w.stored.Some? ==> RuleAligned(ins, w.stored.value) && ConfirmedOnce(w.books, w.stored.value))
  }

  lemma DesktopOrderly(ins: Instrument, w: World, t: Turn)
    requires ins.Valid() && WorldOrderly(ins, w)
    ensures Orderly(ins, Desktop(ins, w, t)) && Desktop(ins, w, t).truth == w.truth
  {
  }

  /** Over any sequence of cycles in which calls confirm or have no effect: all partial closes fit, each R level
      and break-even are confirmed at most once, and a position of at least the minimum volume never falls
      below it unless close-at-R fires. */
  lemma {:induction false} RunsStayOrderly(ins: Instrument, opening: Holding, ts: seq<Turn>)
    requires ins.Valid() && forall t :: t in ts ==> HonestForecast(t.forecast)
    ensures WorldOrderly(ins, Run(ins, opening, ts))
    ensures NeverClosesAtR(ins, opening, ts) && opening.volume >= ins.minVolume ==> Run(ins, opening, ts).truth.volume >= ins.minVolume
  {
    hide Cycle, Desktop, PartialsFit, ConfirmedOnce, CloseFires, R;
    if ts == [] {
      EmptyWorldOrderly(ins, opening);
    } else {
      var before := ts[..|ts| - 1];
      var t := ts[|ts| - 1];
      RunsStayOrderly(ins, opening, before);
      var w := Run(ins, opening, before);
      DesktopOrderly(ins, w, t);
      CycleOrderly(t.cfg, ins, t.mkt, Desktop(ins, w, t), t.forecast);
    }
  }

  lemma EmptyWorldOrderly(ins: Instrument, opening: Holding)
    requires ins.Valid()
    ensures WorldOrderly(ins, World(Books(map[], []), opening, None))
  {
  }

  // ---- Protection only tightens, whatever the outcomes ----

  predicate Tighter(ins: Instrument, before: real, after: real) {
    before > 0.0 ==> after > 0.0 && if ins.side == Buy then after >= before else after <= before
  }

  /** The local stop is the broker's, or the broker has the default stop of an attachment that went unconfirmed. */
  predicate Agrees(cfg: Settings, ins: Instrument, d: Desk) {
    d.local.stop == d.truth.stop || (d.local.stop <= 0.0 && d.truth.stop == ins.PriceAt(-cfg.slPoints))
  }

  lemma AttachTightens(cfg: Settings, ins: Instrument, mkt: Market, d: Desk, w: Weather)
    requires ins.Valid() && cfg.Valid() && d.truth == d.local
    ensures
      var after := Attached(cfg, ins, mkt, d, w);
      Tighter(ins, d.truth.stop, after.truth.stop) && Agrees(cfg, ins, after) && after.memory == d.memory
  {
  }

  lemma VolumeStagesKeepStop(cfg: Settings, ins: Instrument, mkt: Market, r: Option<real>, d: Desk, w: Weather)
    requires ins.Valid()
    ensures PartiallyClosed(cfg, ins, r, d, w).truth.stop == d.truth.stop
    ensures PartiallyClosed(cfg, ins, r, d, w).local.stop == d.local.stop
    ensures RuleApplied(ins, mkt, d, w).truth.stop == d.truth.stop
    ensures RuleApplied(ins, mkt, d, w).local.stop == d.local.stop
  {
    hide AfterClose, CloseConfirmed;
  }

  lemma DefaultStopIsBeyondBreakEven(cfg: Settings, ins: Instrument)
    requires ins.Valid() && cfg.Valid()
    ensures
      var target := ins.PriceAt(cfg.breakEvenOffsetPoints);
      if ins.side == Buy then target >= ins.PriceAt(-cfg.slPoints) && target > 0.0 else target <= ins.PriceAt(-cfg.slPoints)
  {
    assert cfg.breakEvenOffsetPoints * ins.point >= 0.0;
    assert cfg.slPoints * ins.point >= 0.0;
  }

  lemma BreakEvenTightens(cfg: Settings, ins: Instrument, r: Option<real>, d: Desk, w: Weather)
    requires ins.Valid() && cfg.Valid() && Agrees(cfg, ins, d)
    ensures Tighter(ins, d.truth.stop, BrokenEven(cfg, ins, r, d, w).truth.stop)
  {
    hide Attempt;
    DefaultStopIsBeyondBreakEven(cfg, ins);
    var target := ins.PriceAt(cfg.breakEvenOffsetPoints);
    assert PriceClose(d.local.take, d.local.take, ins.point);
    assert target <= 0.0 ==> InPlace(d.local.stop, d.local.take, target, d.local.take, ins.point);
  }

  lemma CycleTightens(cfg: Settings, ins: Instrument, mkt: Market, start: Desk, f: Forecast)
    requires ins.Valid() && cfg.Valid() && start.truth == start.local
    ensures Tighter(ins, start.truth.stop, Cycle(cfg, ins, mkt, start, f).truth.stop)
  {
    hide Attached, PartiallyClosed, RuleApplied, BrokenEven, R, AfterClose;
    AttachTightens(cfg, ins, mkt, start, f.attach);
    var d1 := Attached(cfg, ins, mkt, start, f.attach);
    var r := R(ins, mkt, d1.memory);
    VolumeStagesKeepStop(cfg, ins, mkt, r, d1, f.partial);
    var d2 := PartiallyClosed(cfg, ins, r, d1, f.partial);
    VolumeStagesKeepStop(cfg, ins, mkt, r, d2, f.rule);
    BreakEvenTightens(cfg, ins, r, RuleApplied(ins, mkt, d2, f.rule), f.even);
  }

  /** Once the broker holds a positive stop, no later sequence of cycles moves a BUY stop down or a SELL stop up,
      for any prices, crashes and ambiguous outcomes. */
  lemma {:induction false} StopsOnlyTighten(ins: Instrument, opening: Holding, ts: seq<Turn>, i: nat)
    requires ins.Valid() && i <= |ts| && forall t :: t in ts ==> t.cfg.Valid()
    ensures Tighter(ins, Run(ins, opening, ts[..i]).truth.stop, Run(ins, opening, ts).truth.stop)
  {
    hide Cycle;
    if i == |ts| {
      assert ts[..i] == ts;
    } else {
      var before := ts[..|ts| - 1];
      var t := ts[|ts| - 1];
      assert before[..i] == ts[..i];
      StopsOnlyTighten(ins, opening, before, i);
      CycleTightens(t.cfg, ins, t.mkt, Desktop(ins, Run(ins, opening, before), t), t.forecast);
    }
  }

  // ---- What each stage is for ----

  /** On the losing side of the opening price by `points`. */
  predicate Losing(ins: Instrument, price: real, points: real) {
    points > 0.0 && if ins.side == Buy then ins.openPrice - price == points * ins.point else price - ins.openPrice == points * ins.point
  }

  /** Attaching puts a missing stop on the losing side and a missing target on the winning side, at the configured
      distances, and leaves a price that is there alone. */
  lemma AttachBrackets(cfg: Settings, ins: Instrument, mkt: Market, d: Desk, w: Weather)
    requires ins.Valid() && cfg.Valid()
    ensures
      var after := Attached(cfg, ins, mkt, d, w).local;
      && (after.stop != d.local.stop ==> d.local.stop <= 0.0 && Losing(ins, after.stop, cfg.slPoints))
      && (after.take != d.local.take ==> d.local.take <= 0.0 && Losing(ins.(side := if ins.side == Buy then Sell else Buy), after.take, cfg.tpPoints))
      && after.volume == d.local.volume
  {
  }

  /** A confirmed close at R closes the whole position. */
  lemma CloseAtRClosesAll(ins: Instrument, d: Desk, level: real)
    requires d.truth == d.local && d.local.volume >= 0 && KeyOf(ins, CloseAtR(level)) !in d.books.ledger
    ensures Reduced(ins, d, CloseAtR(level), d.local.volume, Smooth).truth.volume == 0
    ensures Reduced(ins, d, CloseAtR(level), d.local.volume, Smooth).local.volume == 0
  {
  }

  /** At the break-even price or better, up to the tolerance of price comparison. */
  predicate Even(ins: Instrument, stop: real, target: real) {
    if ins.side == Buy then stop >= target - 0.51 * ins.point else stop <= target + 0.51 * ins.point
  }

  /** When a cycle records break-even, the stop is at the break-even price or better, unless an older ledger entry for
      that very price was already done. */
  lemma BreakEvenRecordedMeansEven(cfg: Settings, ins: Instrument, r: Option<real>, d: Desk, w: Weather)
    requires ins.Valid() && cfg.Valid() && !d.memory.beDone && ins.PriceAt(cfg.breakEvenOffsetPoints) > 0.0
    requires
      var key := KeyOf(ins, BreakEven(ins.Ticks(ins.PriceAt(cfg.breakEvenOffsetPoints))));
      key in d.books.ledger ==> d.books.ledger[key].progress != Done
    ensures
      var after := BrokenEven(cfg, ins, r, d, w);
      after.memory.beDone ==> Even(ins, after.local.stop, ins.PriceAt(cfg.breakEvenOffsetPoints))
  {
    hide Instrument.PriceAt, Instrument.Ticks;
  }

  // ---- What ambiguous outcomes break ----

  /** A level's broker call is guarded per (level, volume): it is made exactly when the volume is positive and no
      ledger entry exists for this very pair. */
  lemma LevelCallsBrokerIff(ins: Instrument, d: Desk, i: nat, volume: int, w: Weather)
    requires w.Smooth? || w.Throws? || w.CrashAfterCall?
    ensures LevelHandled(ins, d, i, volume, w).books.calls != d.books.calls
      <==> volume > 0 && KeyOf(ins, RPartial(i, volume)) !in d.books.ledger
  {
  }

  const EXAMPLE := Instrument(1, 7, Buy, 100.0, 1.0, 10, 10)
  const HALVING := Settings(false, 10.0, 10.0, 0.0, [1.0], [50.0], 0.0, 0.0)

  /** "At most once per R level" fails after a call that took effect but threw: the next cycle computes a smaller
      volume, which is another key, and the same level is closed a second time. */
  lemma AmbiguousOutcomeClosesLevelTwice()
    ensures
      var m := Memory(10.0, 80, {}, false, None);
      var h := Holding(80, 0.0, 0.0);
      var first := PartiallyClosed(HALVING, EXAMPLE, Some(2.0), Desk(Books(map[], []), h, h, m, false), Throws(true));
      var second := PartiallyClosed(HALVING, EXAMPLE, Some(2.0), first.(local := first.truth), Smooth);
      && |second.books.calls| == 2
      && second.books.calls[0].applied && second.books.calls[0].key.action == RPartial(0, 40)
      && second.books.calls[1].applied && second.books.calls[1].key.action == RPartial(0, 20)
  {
    var m := Memory(10.0, 80, {}, false, None);
    var h := Holding(80, 0.0, 0.0);
    var start := Desk(Books(map[], []), h, h, m, false);
    assert RequestedRaw(80, 50.0, 10) == 40;
    HalvedOnce(start, 40, Throws(true));
    var first := PartiallyClosed(HALVING, EXAMPLE, Some(2.0), start, Throws(true));
    assert RequestedRaw(40, 50.0, 10) == 20;
    HalvedOnce(first.(local := first.truth), 20, Smooth);
    hide PartiallyClosed;
  }

  /** What one partial stage of the example does. */
  lemma HalvedOnce(d: Desk, half: int, w: Weather)
    requires (half == 20 || half == 40) && RequestedRaw(2 * half, 50.0, 10) == half && (w == Smooth || w == Throws(true))
    requires d.memory == Memory(10.0, 80, {}, false, None) && d.truth == d.local && d.local.volume == 2 * half && !d.crashed
    requires KeyOf(EXAMPLE, RPartial(0, half)) !in d.books.ledger
    ensures
      var after := PartiallyClosed(HALVING, EXAMPLE, Some(2.0), d, w);
      && |after.books.calls| == |d.books.calls| + 1 && d.books.calls <= after.books.calls
      && after.books.calls[|d.books.calls|].applied && after.books.calls[|d.books.calls|].key.action == RPartial(0, half)
      && after.truth == d.truth.(volume := half) && !after.crashed
      && (w == Throws(true) ==> after.memory == d.memory)
      && (forall key :: key in after.books.ledger ==> key in d.books.ledger || key.action == RPartial(0, half))
  {
    assert NextLevel([1.0], {}, 2.0, 0) == 0;
    assert LevelVolume(HALVING, EXAMPLE, d, 0) == half;
  }

  /** "Never below the minimum" fails the same way within one cycle: the unconfirmed partial close halves the
      position, and the armed rule, reckoning with the old volume, closes the rest. */
  lemma AmbiguousOutcomeEmptiesPosition()
    ensures
      var m := Memory(10.0, 40, {}, false, Some(Rule("intent-1", false, 100.0, 30)));
      var h := Holding(40, 0.0, 0.0);
      var d2 := PartiallyClosed(HALVING, EXAMPLE, Some(2.0), Desk(Books(map[], []), h, h, m, false), Throws(true));
      d2.truth.volume == 20 && RuleApplied(EXAMPLE, Market(Some(120.0), None, 0), d2, Smooth).truth.volume == 0
  {
    assert NextLevel([1.0], {}, 2.0, 0) == 0;
    assert RequestedRaw(40, 50.0, 10) == 20;
  }
}
