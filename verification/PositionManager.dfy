/** One management cycle over a position, and what any sequence of cycles keeps. */
module PositionManager {
  import opened Common
  import opened ManagerDomain
  import opened MutationLedger

  const MAX_LEVELS := 30

  datatype Settings = Settings(
    autoAttach: bool, slPoints: real, tpPoints: real, closeAtR: real,
    levels: seq<real>, percents: seq<real>, breakEvenAtR: real, breakEvenOffsetPoints: real)
  {
    predicate Valid() {
      slPoints > 0.0 && tpPoints > 0.0 && breakEvenOffsetPoints >= 0.0
    }
  }

  datatype Instrument = Instrument(
    account: int, position: int, side: Side, openPrice: real, point: real, minVolume: int, stepVolume: int)
  {
    predicate Valid() {
      openPrice > 0.0 && point > 0.0 && minVolume >= 1 && stepVolume >= 1
    }

    /** The price `points` away from the opening price, on the winning side for positive points. */
    function PriceAt(points: real): real {
      if side == Buy then openPrice + points * point else openPrice - points * point
    }

    function Ticks(price: real): int
      requires point > 0.0
    {
      Round(price / point)
    }
  }

  datatype Rule = Rule(ruleId: string, byProfit: bool, threshold: real, volumeRaw: int)

  /** The stored manager state of a position; `mask` holds the indices of the set bits. */
  datatype Memory = Memory(riskPoints: real, originalVolume: int, mask: set<nat>, beDone: bool, rule: Option<Rule>)

  datatype Holding = Holding(volume: int, stop: real, take: real)

  /** What the fresh snapshot says besides the holding. */
  datatype Market = Market(price: Option<real>, profit: Option<real>, updatedAt: int)

  /** What each broker call of a cycle meets, and whether the process lives to save the state at the end. */
  datatype Forecast = Forecast(attach: Weather, close: Weather, partial: Weather, rule: Weather, even: Weather, saves: bool)

  /** `truth` is the broker's holding, `local` the copy the cycle works on. */
  datatype Desk = Desk(books: Books, truth: Holding, local: Holding, memory: Memory, crashed: bool)

  function KeyOf(ins: Instrument, a: Action): Key {
    Key(ins.account, ins.position, a)
  }

  function Protected(ins: Instrument, d: Desk, a: Action, stop: real, take: real, w: Weather): Desk {
    var r := AfterProtect(d.books, KeyOf(ins, a), InPlace(d.local.stop, d.local.take, stop, take, ins.point), stop, take, w);
    d.(books := r.books,
       truth := if r.applied then d.truth.(stop := stop, take := take) else d.truth,
       local := if r.called && r.answer == Confirmed then d.local.(stop := stop, take := take) else d.local,
       crashed := r.answer == Crashed)
  }

  function Reduced(ins: Instrument, d: Desk, a: Action, volume: int, w: Weather): Desk {
    var r := AfterClose(d.books, KeyOf(ins, a), d.local.volume, ins.stepVolume, volume, w);
    d.(books := r.books,
       truth := if r.applied then d.truth.(volume := MaxInt(0, d.truth.volume - volume)) else d.truth,
       local := if r.called && r.answer == Confirmed then d.local.(volume := MaxInt(0, d.local.volume - volume)) else d.local,
       crashed := r.answer == Crashed)
  }

  /** The close was confirmed, now or by the ledger. */
  predicate CloseConfirmed(ins: Instrument, d: Desk, a: Action, volume: int, w: Weather) {
    AfterClose(d.books, KeyOf(ins, a), d.local.volume, ins.stepVolume, volume, w).answer == Confirmed
  }

  predicate ProtectionConfirmed(ins: Instrument, d: Desk, a: Action, stop: real, take: real, w: Weather) {
    AfterProtect(d.books, KeyOf(ins, a), InPlace(d.local.stop, d.local.take, stop, take, ins.point), stop, take, w).answer == Confirmed
  }

  // ---- The stages of a cycle ----

  function Attached(cfg: Settings, ins: Instrument, mkt: Market, d: Desk, w: Weather): Desk
    requires ins.Valid()
  {
    if !cfg.autoAttach || (d.local.stop > 0.0 && d.local.take > 0.0) then d
    else
      var stop := if d.local.stop > 0.0 then d.local.stop else ins.PriceAt(-cfg.slPoints);
      var take := if d.local.take > 0.0 then d.local.take else ins.PriceAt(cfg.tpPoints);
      Protected(ins, d, Protect(mkt.updatedAt, ins.Ticks(stop), ins.Ticks(take)), stop, take, w)
  }

  function R(ins: Instrument, mkt: Market, m: Memory): Option<real>
    requires ins.Valid()
  {
    if mkt.price.None? then None else Some(CurrentR(ins.side, ins.openPrice, mkt.price.value, ins.point, m.riskPoints))
  }

  predicate CloseFires(cfg: Settings, r: Option<real>) {
    r.Some? && cfg.closeAtR > 0.0 && r.value >= cfg.closeAtR
  }

  /** The first level that is reached and not yet marked, or the number of levels. */
  function NextLevel(levels: seq<real>, mask: set<nat>, r: real, from: nat): (i: nat)
    requires from <= |levels|
    ensures from <= i <= |levels|
    ensures i < |levels| && i < MAX_LEVELS ==> i !in mask && r >= levels[i]
    decreases |levels| - from
  {
    if from == |levels| || from >= MAX_LEVELS then from
    else if from !in mask && r >= levels[from] then from
    else NextLevel(levels, mask, r, from + 1)
  }

  function PercentFor(cfg: Settings, i: nat): real {
    if i < |cfg.percents| then cfg.percents[i]
    else if cfg.percents != [] then cfg.percents[|cfg.percents| - 1] else 0.0
  }

  function LevelVolume(cfg: Settings, ins: Instrument, d: Desk, i: nat): int {
    NormalizePartialCloseRaw(d.local.volume, d.memory.originalVolume, PercentFor(cfg, i), ins.minVolume, ins.stepVolume, |cfg.percents| > 1)
  }

  function PartiallyClosed(cfg: Settings, ins: Instrument, r: Option<real>, d: Desk, w: Weather): Desk {
    if r.None? || cfg.levels == [] || cfg.percents == [] || d.local.volume <= ins.minVolume then d
    else
      var i := NextLevel(cfg.levels, d.memory.mask, r.value, 0);
      if i >= |cfg.levels| || i >= MAX_LEVELS then d
      else LevelHandled(ins, d, i, LevelVolume(cfg, ins, d, i), w)
  }

  function LevelHandled(ins: Instrument, d: Desk, i: nat, volume: int, w: Weather): Desk {
    if volume <= 0 then d.(memory := Marked(d.memory, i))
    else
      var after := Reduced(ins, d, RPartial(i, volume), volume, w);
      if CloseConfirmed(ins, d, RPartial(i, volume), volume, w) then after.(memory := Marked(d.memory, i)) else after
  }

  function Marked(m: Memory, i: nat): Memory {
    m.(mask := m.mask + {i})
  }

  predicate RuleHit(ins: Instrument, mkt: Market, rule: Rule) {
    if rule.byProfit then mkt.profit.Some? && mkt.profit.value >= rule.threshold
    else mkt.price.Some? && HitDirectionalPrice(ins.side, mkt.price.value, rule.threshold)
  }

  function RuleVolume(ins: Instrument, d: Desk, rule: Rule): int
    requires ins.Valid()
  {
    MinInt(rule.volumeRaw, FloorTo(MaxInt(0, d.local.volume - ins.minVolume), ins.stepVolume))
  }

  function RuleApplied(ins: Instrument, mkt: Market, d: Desk, w: Weather): Desk
    requires ins.Valid()
  {
    if d.memory.rule.None? || d.local.volume <= ins.minVolume || !RuleHit(ins, mkt, d.memory.rule.value) then d
    else
      var rule := d.memory.rule.value;
      var volume := RuleVolume(ins, d, rule);
      if volume < ins.minVolume then d
      else
        var after := Reduced(ins, d, Dynamic(rule.ruleId), volume, w);
        if CloseConfirmed(ins, d, Dynamic(rule.ruleId), volume, w) then after.(memory := d.memory.(rule := None)) else after
  }

  predicate AlreadyBetter(ins: Instrument, stop: real, target: real) {
    stop > 0.0 && if ins.side == Buy then stop >= target - ins.point / 2.0 else stop <= target + ins.point / 2.0
  }

  function BrokenEven(cfg: Settings, ins: Instrument, r: Option<real>, d: Desk, w: Weather): Desk
    requires ins.Valid()
  {
    if r.None? || cfg.breakEvenAtR <= 0.0 || r.value < cfg.breakEvenAtR || d.memory.beDone then d
    else
      var target := ins.PriceAt(cfg.breakEvenOffsetPoints);
      var done := d.memory.(beDone := true);
      if AlreadyBetter(ins, d.local.stop, target) then d.(memory := done)
      else
        var a := BreakEven(ins.Ticks(target));
        var after := Protected(ins, d, a, target, d.local.take, w);
        if ProtectionConfirmed(ins, d, a, target, d.local.take, w) then after.(memory := done) else after
  }

  function FreshMemory(cfg: Settings, ins: Instrument, h: Holding): Memory
    requires ins.Valid()
  {
    var risk := RiskPointsFromPrices(ins.openPrice, h.stop, ins.point);
    Memory(if risk != 0.0 then risk else cfg.slPoints, h.volume, {}, false, None)
  }

  function Opened(cfg: Settings, ins: Instrument, books: Books, truth: Holding, stored: Option<Memory>): Desk
    requires ins.Valid()
  {
    Desk(books, truth, truth, if stored.Some? then stored.value else FreshMemory(cfg, ins, truth), false)
  }

  /** The desk when the cycle ends; after a crash its memory was not saved. */
  function Cycle(cfg: Settings, ins: Instrument, mkt: Market, start: Desk, f: Forecast): Desk
    requires ins.Valid()
  {
    var d1 := Attached(cfg, ins, mkt, start, f.attach);
    if d1.crashed then d1
    else
      var r := R(ins, mkt, d1.memory);
      if CloseFires(cfg, r) then Reduced(ins, d1, CloseAtR(cfg.closeAtR), d1.local.volume, f.close)
      else
        var d2 := PartiallyClosed(cfg, ins, r, d1, f.partial);
        if d2.crashed then d2
        else
          var d3 := RuleApplied(ins, mkt, d2, f.rule);
          if d3.crashed then d3 else BrokenEven(cfg, ins, r, d3, f.even)
  }

  function Saved(start: Desk, end: Desk, f: Forecast): Memory {
    if end.crashed || !f.saves then start.memory else end.memory
  }

  // ---- The manager itself ----

  /** The manager of one account. `truth` is the broker's own holding of the position at hand, which the code
      only learns from the next snapshot. */
  class Manager {
    const account: int
    const ledger: Ledger
    var stored: map<int, Memory>
    ghost var truth: Holding

    constructor (account: int)
      ensures this.account == account && stored == map[] && fresh(ledger) && ledger.View() == Books(map[], [])
    {
      this.account := account;
      ledger := new Ledger();
      stored := map[];
      truth := Holding(0, 0.0, 0.0);
    }

    function Ins(p: Position): Instrument {
      Instrument(account, p.id, p.side, p.openPrice, p.point, p.minVolume, p.stepVolume)
    }

    ghost function View(p: Position, m: Memory, crashed: bool): Desk
      reads this, ledger, p
    {
      Desk(ledger.View(), truth, Holding(p.volumeRaw, p.stopLoss, p.takeProfit), m, crashed)
    }

    method Protect(p: Position, a: Action, stop: real, take: real, w: Weather, ghost m: Memory) returns (answer: Answer)
      modifies ledger, p`stopLoss, p`takeProfit, this`truth
      ensures View(p, m, answer == Crashed) == Protected(Ins(p), old(View(p, m, false)), a, stop, take, w)
      ensures answer == Confirmed <==> ProtectionConfirmed(Ins(p), old(View(p, m, false)), a, stop, take, w)
    {
      var applied;
      answer, applied := ledger.GuardedProtection(p, KeyOf(Ins(p), a), stop, take, w);
      truth := if applied then truth.(stop := stop, take := take) else truth;
    }

    method Close(p: Position, a: Action, volume: int, w: Weather, ghost m: Memory) returns (answer: Answer)
      modifies ledger, p`volumeRaw, this`truth
      ensures View(p, m, answer == Crashed) == Reduced(Ins(p), old(View(p, m, false)), a, volume, w)
      ensures answer == Confirmed <==> CloseConfirmed(Ins(p), old(View(p, m, false)), a, volume, w)
    {
      var applied;
      answer, applied := ledger.GuardedClose(p, KeyOf(Ins(p), a), volume, w);
      truth := if applied then truth.(volume := MaxInt(0, truth.volume - volume)) else truth;
    }

    method AttachProtection(cfg: Settings, p: Position, mkt: Market, w: Weather, ghost m: Memory) returns (crashed: bool)
      requires Ins(p).Valid()
      modifies ledger, p`stopLoss, p`takeProfit, this`truth
      ensures View(p, m, crashed) == Attached(cfg, Ins(p), mkt, old(View(p, m, false)), w)
    {
      hide Protected;
      crashed := false;
      if cfg.autoAttach && (p.stopLoss <= 0.0 || p.takeProfit <= 0.0) {
        var ins := Ins(p);
        var stop := if p.stopLoss > 0.0 then p.stopLoss else ins.PriceAt(-cfg.slPoints);
        var take := if p.takeProfit > 0.0 then p.takeProfit else ins.PriceAt(cfg.tpPoints);
        var answer := Protect(p, MutationLedger.Action.Protect(mkt.updatedAt, ins.Ticks(stop), ins.Ticks(take)), stop, take, w, m);
        crashed := answer == Crashed;
      }
    }

    /** Walks the levels for the first one that is reached and unmarked, and handles only that one. */
    method ClosePartialAtLevel(cfg: Settings, p: Position, r: Option<real>, memory: Memory, w: Weather) returns (m: Memory, crashed: bool)
      requires Ins(p).Valid()
      modifies ledger, p`volumeRaw, this`truth
      ensures View(p, m, crashed) == PartiallyClosed(cfg, Ins(p), r, old(View(p, memory, false)), w)
    {
      hide Reduced, CloseConfirmed;
      m, crashed := memory, false;
      if r.None? || cfg.levels == [] || cfg.percents == [] || p.volumeRaw <= p.minVolume {
        return;
      }
      var i := 0;
      while i < |cfg.levels| && i < MAX_LEVELS && (i in m.mask || r.value < cfg.levels[i])
        invariant 0 <= i <= |cfg.levels|
        invariant NextLevel(cfg.levels, m.mask, r.value, 0) == NextLevel(cfg.levels, m.mask, r.value, i)
      {
        i := i + 1;
      }
      if i == |cfg.levels| || i >= MAX_LEVELS {
        return;
      }
      var volume := NormalizePartialCloseRaw(p.volumeRaw, m.originalVolume, PercentFor(cfg, i), p.minVolume, p.stepVolume, |cfg.percents| > 1);
      if volume <= 0 {
        m := Marked(m, i);
        return;
      }
      var answer := Close(p, RPartial(i, volume), volume, w, memory);
      m := if answer == Confirmed then Marked(m, i) else m;
      crashed := answer == Crashed;
    }

    method ApplyDynamicRule(p: Position, mkt: Market, memory: Memory, w: Weather) returns (m: Memory, crashed: bool)
      requires Ins(p).Valid()
      modifies ledger, p`volumeRaw, this`truth
      ensures View(p, m, crashed) == RuleApplied(Ins(p), mkt, old(View(p, memory, false)), w)
    {
      hide Reduced, CloseConfirmed;
      m, crashed := memory, false;
      if m.rule.None? || p.volumeRaw <= p.minVolume || !RuleHit(Ins(p), mkt, m.rule.value) {
        return;
      }
      var maxPartial := MaxInt(0, p.volumeRaw - p.minVolume);
      var volume := MinInt(m.rule.value.volumeRaw, FloorTo(maxPartial, p.stepVolume));
      if volume < p.minVolume {
        return;
      }
      var answer := Close(p, Dynamic(m.rule.value.ruleId), volume, w, memory);
      m := if answer == Confirmed then m.(rule := None) else m;
      crashed := answer == Crashed;
    }

    method MoveToBreakEven(cfg: Settings, p: Position, r: Option<real>, memory: Memory, w: Weather) returns (m: Memory, crashed: bool)
      requires Ins(p).Valid()
      modifies ledger, p`stopLoss, p`takeProfit, this`truth
      ensures View(p, m, crashed) == BrokenEven(cfg, Ins(p), r, old(View(p, memory, false)), w)
    {
      hide Protected, ProtectionConfirmed, AlreadyBetter;
      m, crashed := memory, false;
      if r.None? || cfg.breakEvenAtR <= 0.0 || r.value < cfg.breakEvenAtR || m.beDone {
        return;
      }
      var ins := Ins(p);
      var target := ins.PriceAt(cfg.breakEvenOffsetPoints);
      if AlreadyBetter(ins, p.stopLoss, target) {
        m := m.(beDone := true);
        return;
      }
      var answer := Protect(p, BreakEven(ins.Ticks(target)), target, p.takeProfit, w, memory);
      m := if answer == Confirmed then m.(beDone := true) else m;
      crashed := answer == Crashed;
    }

    /** One cycle over a position freshly read from the broker. A crash leaves the stored memory as loaded. */
    method ManagePosition(cfg: Settings, p: Position, mkt: Market, f: Forecast)
      requires Ins(p).Valid()
      requires truth == Holding(p.volumeRaw, p.stopLoss, p.takeProfit)
      modifies ledger, p, this
      ensures
        var before := if p.id in old(stored) then Some(old(stored[p.id])) else None;
        var start := Opened(cfg, Ins(p), old(ledger.View()), old(truth), before);
        var end := Cycle(cfg, Ins(p), mkt, start, f);
        && ledger.View() == end.books && truth == end.truth
        && stored == old(stored)[p.id := Saved(start, end, f)]
    {
      hide Attached, PartiallyClosed, RuleApplied, BrokenEven, Reduced;
      var memory := LoadMemory(cfg, p);
      ghost var start := View(p, memory, false);
      var crashed := AttachProtection(cfg, p, mkt, f.attach, memory);
      if crashed {
        return;
      }
      var r := R(Ins(p), mkt, memory);
      if CloseFires(cfg, r) {
        var answer := Close(p, CloseAtR(cfg.closeAtR), p.volumeRaw, f.close, memory);
        return;
      }
      memory, crashed := ClosePartialAtLevel(cfg, p, r, memory, f.partial);
      if crashed {
        return;
      }
      memory, crashed := ApplyDynamicRule(p, mkt, memory, f.rule);
      if crashed {
        return;
      }
      memory, crashed := MoveToBreakEven(cfg, p, r, memory, f.even);
      if crashed || !f.saves {
        return;
      }
      stored := stored[p.id := memory];
    }

    method LoadMemory(cfg: Settings, p: Position) returns (memory: Memory)
      requires Ins(p).Valid()
      modifies this`stored
      ensures memory == if p.id in old(stored) then old(stored[p.id])
                        else FreshMemory(cfg, Ins(p), Holding(p.volumeRaw, p.stopLoss, p.takeProfit))
      ensures stored == old(stored)[p.id := memory]
    {
      if p.id in stored {
        memory := stored[p.id];
      } else {
        memory := FreshMemory(cfg, Ins(p), Holding(p.volumeRaw, p.stopLoss, p.takeProfit));
        stored := stored[p.id := memory];
      }
    }
  }
}
