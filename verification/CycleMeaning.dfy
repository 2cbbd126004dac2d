/** One management cycle told in orders: which stage gives which order, at which price or for which volume, what becomes of
    it, and what the manager remembers. */
module CycleMeaning {
  import opened Common
  import opened ManagerDomain
  import opened MutationLedger
  import opened PositionManager
  import opened PositionOutcomes
  import opened PositionLevels

  // ---- Orders ----

  /** The order under which the ledger files an action of this position. */
  function OrderKey(ins: Instrument, a: Action): Key {
    Key.Key(ins.account, ins.position, a)
  }

  predicate IsDone(b: Books, key: Key) {
    key in b.ledger && b.ledger[key].progress == Done
  }

  /** The broker has carried the order out: it answered, or it did before the answer or the process was lost. */
  predicate TakesEffect(w: Weather) {
    w.Smooth? || ((w.Throws? || w.CrashAfterCall?) && w.applied)
  }

  predicate Dies(w: Weather) {
    w.CrashEarly? || w.CrashBeforeCall? || w.CrashAfterCall?
  }

  predicate Within(a: real, b: real, tolerance: real) {
    -tolerance <= a - b <= tolerance
  }

  /** An order for a stop and a take profit, from one desk to the next. */
  ghost predicate Protects(ins: Instrument, d: Desk, e: Desk, a: Action, stop: real, take: real, w: Weather) {
    var key := OrderKey(ins, a);
    var inPlace := (stop <= 0.0 || Within(d.local.stop, stop, 0.51 * ins.point)) && (take <= 0.0 || Within(d.local.take, take, 0.51 * ins.point));
    var sent := !inPlace && key !in d.books.ledger;
    && e.memory == d.memory && e.local.volume == d.local.volume && e.truth.volume == d.truth.volume
    && (inPlace ==> e.books.calls == d.books.calls && IsDone(e.books, key)
                    && forall k :: k != key ==> (k in e.books.ledger <==> k in d.books.ledger)
                                                && (k in d.books.ledger ==> e.books.ledger[k] == d.books.ledger[k]))
    && (!inPlace && !sent ==> e.books == d.books)
    && (sent ==> Attempted(key, 0, 0, stop, take, w, d.books.ledger, d.books.calls, e.books.ledger, e.books.calls, Told(w)))
    && (e.truth.stop, e.truth.take) == (if sent && TakesEffect(w) then (stop, take) else (d.truth.stop, d.truth.take))
    && (e.local.stop, e.local.take) == (if sent && w.Smooth? then (stop, take) else (d.local.stop, d.local.take))
    && (e.crashed <==> sent && Dies(w))
  }

  function Told(w: Weather): Answer {
    if w.Smooth? then Confirmed else if w.Throws? then Unclear else Crashed
  }

  /** An order to close a volume. Without a new call, an unfinished earlier one counts as done when what is held shows it. */
  ghost predicate Closes(ins: Instrument, d: Desk, e: Desk, a: Action, volume: int, w: Weather) {
    var key := OrderKey(ins, a);
    var sent := key !in d.books.ledger;
    && e.memory == d.memory && e.local.stop == d.local.stop && e.local.take == d.local.take
    && e.truth.stop == d.truth.stop && e.truth.take == d.truth.take
    && (sent ==> Attempted(key, d.local.volume, volume, 0.0, 0.0, w, d.books.ledger, d.books.calls, e.books.ledger, e.books.calls, Told(w)))
    && (!sent ==>
          var e0 := d.books.ledger[key];
          && e.books.calls == d.books.calls
          && e.books.ledger == if GoneSince(e0, d.local.volume, ins.stepVolume) then d.books.ledger[key := e0.(progress := Done)] else d.books.ledger)
    && e.truth.volume == (if sent && TakesEffect(w) then Less(d.truth.volume, volume) else d.truth.volume)
    && e.local.volume == (if sent && w.Smooth? then Less(d.local.volume, volume) else d.local.volume)
    && (e.crashed <==> sent && Dies(w))
  }

  function Less(held: int, volume: int): int {
    if held > volume then held - volume else 0
  }

  /** What is held now is what was held less what was asked for, or less, up to half a step. */
  predicate GoneSince(e: Entry, held: int, step: int) {
    e.heldBefore != 0 && e.requested != 0 && held as real <= (e.heldBefore - e.requested) as real + step as real / 2.0
  }

  // ---- Stages ----

  /** `r` is the distance from the opening price in units of the initial risk, counted towards the winning side. */
  predicate IsR(ins: Instrument, price: real, risk: real, r: real) {
    if price <= 0.0 || risk <= 0.0 then r == 0.0
    else r * risk * ins.point == if ins.side == Buy then price - ins.openPrice else ins.openPrice - price
  }

  /** The price so many points from the opening price, below it for a buyer's loss and above it for a seller's. */
  predicate IsAway(ins: Instrument, price: real, points: real, winning: bool) {
    price == if (ins.side == Buy) == winning then ins.openPrice + points * ins.point else ins.openPrice - points * ins.point
  }

  predicate IsTicks(ins: Instrument, price: real, ticks: int)
    requires ins.point > 0.0
  {
    ticks as real - 0.5 <= price / ins.point < ticks as real + 0.5
  }

  /** A missing stop or take profit is ordered at its default distance; what is there stays. */
  ghost predicate AttachSays(cfg: Settings, ins: Instrument, mkt: Market, d: Desk, e: Desk, w: Weather)
    requires ins.Valid()
  {
    if cfg.autoAttach && (d.local.stop <= 0.0 || d.local.take <= 0.0) then
      exists stop, take, s, t :: AttachOrder(cfg, ins, d, stop, take, s, t) && Protects(ins, d, e, Protect(mkt.updatedAt, s, t), stop, take, w)
    else e == d
  }

  ghost predicate AttachOrder(cfg: Settings, ins: Instrument, d: Desk, stop: real, take: real, s: int, t: int)
    requires ins.Valid()
  {
    && (if d.local.stop > 0.0 then stop == d.local.stop else IsAway(ins, stop, cfg.slPoints, false))
    && (if d.local.take > 0.0 then take == d.local.take else IsAway(ins, take, cfg.tpPoints, true))
    && IsTicks(ins, stop, s) && IsTicks(ins, take, t)
  }

  /** The first due level: its right volume is ordered, and the level is marked once that is done; where nothing can be
      closed, it is marked at once. */
  ghost predicate LevelSays(cfg: Settings, ins: Instrument, r: real, d: Desk, e: Desk, w: Weather) {
    if cfg.percents == [] || d.local.volume <= ins.minVolume then e == d
    else
      && ((forall i :: !FirstDue(cfg, d.memory.mask, r, i)) ==> e == d)
      && forall i :: FirstDue(cfg, d.memory.mask, r, i) ==> DueSays(cfg, ins, r, d, e, w, i)
  }

  ghost predicate DueSays(cfg: Settings, ins: Instrument, r: real, d: Desk, e: Desk, w: Weather, i: nat) {
    || (e == d.(memory := WithLevel(d.memory, i)) && NothingToClose(cfg, ins, d, i))
    || exists v :: LevelOrdered(cfg, ins, r, d, e, w, i, v)
  }

  ghost predicate LevelOrdered(cfg: Settings, ins: Instrument, r: real, d: Desk, e: Desk, w: Weather, i: nat, v: int) {
    && v > 0 && RightClose(cfg, ins, d.memory, d.local.volume, r, i, v)
    && Closes(ins, d, e.(memory := d.memory), RPartial(i, v), v, w)
    && e.memory == if IsDone(e.books, OrderKey(ins, RPartial(i, v))) && !e.crashed then WithLevel(d.memory, i) else d.memory
  }

  function WithLevel(m: Memory, i: nat): Memory {
    Memory(m.riskPoints, m.originalVolume, m.mask + {i}, m.beDone, m.rule)
  }

  /** No closable volume is within the level's share. */
  ghost predicate NothingToClose(cfg: Settings, ins: Instrument, d: Desk, i: nat) {
    exists percent: real, base, q :: BelowMinimum(cfg, ins, d, i, percent, base, q)
  }

  ghost predicate BelowMinimum(cfg: Settings, ins: Instrument, d: Desk, i: nat, percent: real, base: int, q: int) {
    && ShareOf(cfg, d.memory.originalVolume, d.local.volume, i, percent, base)
    && Nearest(q, base as real * percent / 100.0, ins.stepVolume)
    && (percent <= 0.0 || forall u :: Closable(ins, d.local.volume, u) ==> u > q)
  }

  predicate RuleIsHit(ins: Instrument, mkt: Market, rule: Rule) {
    if rule.byProfit then mkt.profit.Some? && rule.threshold <= mkt.profit.value
    else mkt.price.Some? && mkt.price.value > 0.0 && rule.threshold > 0.0
         && if ins.side == Buy then rule.threshold <= mkt.price.value else mkt.price.value <= rule.threshold
  }

  /** The rule's volume, or as many whole steps as leave the minimum, if that is less. */
  predicate IsRuleVolume(ins: Instrument, held: int, rule: Rule, v: int)
    requires ins.Valid()
  {
    && v <= rule.volumeRaw && v <= held - ins.minVolume
    && (v == rule.volumeRaw || (v % ins.stepVolume == 0 && v + ins.stepVolume > held - ins.minVolume))
  }

  /** The rule closes its volume once it is hit and that is no less than the minimum; done, it is forgotten. */
  ghost predicate RuleSays(ins: Instrument, mkt: Market, d: Desk, e: Desk, w: Weather)
    requires ins.Valid()
  {
    if d.memory.rule.Some? && d.local.volume > ins.minVolume && RuleIsHit(ins, mkt, d.memory.rule.value) then
      exists v :: IsRuleVolume(ins, d.local.volume, d.memory.rule.value, v) && RuleOrdered(ins, d, e, w, v)
    else e == d
  }

  ghost predicate RuleOrdered(ins: Instrument, d: Desk, e: Desk, w: Weather, v: int)
    requires d.memory.rule.Some?
  {
    var a := Dynamic(d.memory.rule.value.ruleId);
    if v < ins.minVolume then e == d
    else
      && Closes(ins, d, e.(memory := d.memory), a, v, w)
      && e.memory == if IsDone(e.books, OrderKey(ins, a)) && !e.crashed
                     then Memory(d.memory.riskPoints, d.memory.originalVolume, d.memory.mask, d.memory.beDone, None) else d.memory
  }

  /** From its R on, once: the stop goes to the opening price plus the offset, unless it is there or better already. */
  ghost predicate EvenSays(cfg: Settings, ins: Instrument, r: real, d: Desk, e: Desk, w: Weather)
    requires ins.Valid()
  {
    if cfg.breakEvenAtR > 0.0 && r >= cfg.breakEvenAtR && !d.memory.beDone then
      exists target, t :: IsAway(ins, target, cfg.breakEvenOffsetPoints, true) && IsTicks(ins, target, t) && EvenOrdered(ins, d, e, w, target, t)
    else e == d
  }

  ghost predicate EvenOrdered(ins: Instrument, d: Desk, e: Desk, w: Weather, target: real, t: int) {
    var better := d.local.stop > 0.0
                  && if ins.side == Buy then d.local.stop >= target - ins.point / 2.0 else d.local.stop <= target + ins.point / 2.0;
    var m := Memory(d.memory.riskPoints, d.memory.originalVolume, d.memory.mask, true, d.memory.rule);
    if better then e == d.(memory := m)
    else
      && Protects(ins, d, e.(memory := d.memory), BreakEven(t), target, d.local.take, w)
      && e.memory == if IsDone(e.books, OrderKey(ins, BreakEven(t))) && !e.crashed then m else d.memory
  }

  // ---- The orders are these ----

  lemma CrossLess(a: int, b: int, step: int)
    ensures 2 * a <= 2 * b + step <==> a as real <= b as real + step as real / 2.0
  {
  }

  lemma ProtectedIs(ins: Instrument, d: Desk, a: Action, stop: real, take: real, w: Weather)
    requires !d.crashed
    ensures Protects(ins, d, Protected(ins, d, a, stop, take, w), a, stop, take, w)
    ensures ProtectionConfirmed(ins, d, a, stop, take, w)
       <==> IsDone(Protected(ins, d, a, stop, take, w).books, OrderKey(ins, a)) && !Protected(ins, d, a, stop, take, w).crashed
  {
  }

  lemma ReducedIs(ins: Instrument, d: Desk, a: Action, volume: int, w: Weather)
    requires !d.crashed
    ensures Closes(ins, d, Reduced(ins, d, a, volume, w), a, volume, w)
    ensures CloseConfirmed(ins, d, a, volume, w)
       <==> IsDone(Reduced(ins, d, a, volume, w).books, OrderKey(ins, a)) && !Reduced(ins, d, a, volume, w).crashed
  {
    var key := OrderKey(ins, a);
    if key in d.books.ledger {
      var e := d.books.ledger[key];
      CrossLess(d.local.volume, e.heldBefore - e.requested, ins.stepVolume);
      if e.progress == Done { assert d.books.ledger[key := e.(progress := Done)] == d.books.ledger; }
    }
  }

  lemma TicksAre(ins: Instrument, price: real)
    requires ins.point > 0.0
    ensures IsTicks(ins, price, ins.Ticks(price))
  {
  }

  lemma AwayIs(ins: Instrument, points: real)
    ensures IsAway(ins, ins.PriceAt(points), points, true) && IsAway(ins, ins.PriceAt(-points), points, false)
  {
  }

  lemma AttachIs(cfg: Settings, ins: Instrument, mkt: Market, d: Desk, w: Weather)
    requires ins.Valid() && !d.crashed
    ensures AttachSays(cfg, ins, mkt, d, Attached(cfg, ins, mkt, d, w), w)
  {
    hide Protected, Protects, IsAway, IsTicks;
    hide Instrument.PriceAt, Instrument.Ticks;
    if cfg.autoAttach && (d.local.stop <= 0.0 || d.local.take <= 0.0) {
      var stop := if d.local.stop > 0.0 then d.local.stop else ins.PriceAt(-cfg.slPoints);
      var take := if d.local.take > 0.0 then d.local.take else ins.PriceAt(cfg.tpPoints);
      AwayIs(ins, cfg.slPoints);
      AwayIs(ins, cfg.tpPoints);
      TicksAre(ins, stop);
      TicksAre(ins, take);
      ProtectedIs(ins, d, Protect(mkt.updatedAt, ins.Ticks(stop), ins.Ticks(take)), stop, take, w);
      assert AttachOrder(cfg, ins, d, stop, take, ins.Ticks(stop), ins.Ticks(take));
    }
  }

  /** Whatever is closable within a level's share is at most what the level closes. */
  lemma FittingIsClosed(cfg: Settings, ins: Instrument, d: Desk, i: nat, base: int, u: int)
    requires ins.Valid() && PercentFor(cfg, i) > 0.0 && base == (if |cfg.percents| > 1 then d.memory.originalVolume else d.local.volume)
    requires Closable(ins, d.local.volume, u) && u <= RequestedRaw(base, PercentFor(cfg, i), ins.stepVolume)
    ensures 0 < u <= LevelVolume(cfg, ins, d, i)
  {
    hide RequestedRaw, NormalizePartialCloseRaw;
    PartialCloseIsLargest(d.local.volume, d.memory.originalVolume, PercentFor(cfg, i), ins.minVolume, ins.stepVolume, |cfg.percents| > 1, u);
  }

  lemma NothingFits(cfg: Settings, ins: Instrument, d: Desk, i: nat)
    requires ins.Valid() && cfg.percents != [] && LevelVolume(cfg, ins, d, i) <= 0
    ensures NothingToClose(cfg, ins, d, i)
  {
    var percent := PercentFor(cfg, i);
    var base := if |cfg.percents| > 1 then d.memory.originalVolume else d.local.volume;
    var q := RequestedRaw(base, percent, ins.stepVolume);
    RequestedIsNearest(base, percent, ins.stepVolume);
    hide RequestedRaw, LevelVolume, Closable;
    if percent > 0.0 {
      forall u | Closable(ins, d.local.volume, u) ensures u > q {
        if u <= q { FittingIsClosed(cfg, ins, d, i, base, u); }
      }
    }
    assert BelowMinimum(cfg, ins, d, i, percent, base, q);
  }

  lemma RightVolume(cfg: Settings, ins: Instrument, r: real, d: Desk, i: nat)
    requires ins.Valid() && cfg.percents != [] && LevelVolume(cfg, ins, d, i) > 0 && FirstDue(cfg, d.memory.mask, r, i)
    ensures RightClose(cfg, ins, d.memory, d.local.volume, r, i, LevelVolume(cfg, ins, d, i))
  {
    hide LevelVolume, FirstDue, ShareOf, Nearest, Closable;
    var percent, base, q := LevelVolumeIsLargest(cfg, ins, d, i);
    assert RightShare(cfg, ins, d.memory, d.local.volume, i, LevelVolume(cfg, ins, d, i), percent, base, q);
  }

  lemma DueIs(cfg: Settings, ins: Instrument, r: real, d: Desk, w: Weather, i: nat)
    requires ins.Valid() && !d.crashed && cfg.percents != [] && FirstDue(cfg, d.memory.mask, r, i)
    ensures DueSays(cfg, ins, r, d, LevelHandled(ins, d, i, LevelVolume(cfg, ins, d, i), w), w, i)
  {
    hide FirstDue, RightClose, NothingToClose, Closes, Reduced, CloseConfirmed, IsDone, LevelVolume;
    var v := LevelVolume(cfg, ins, d, i);
    if v <= 0 {
      NothingFits(cfg, ins, d, i);
    } else {
      RightVolume(cfg, ins, r, d, i);
      ReducedIs(ins, d, RPartial(i, v), v, w);
      ReducedRemembers(ins, d, RPartial(i, v), v, w);
      assert LevelOrdered(cfg, ins, r, d, LevelHandled(ins, d, i, v, w), w, i, v);
    }
  }

  lemma ReducedRemembers(ins: Instrument, d: Desk, a: Action, volume: int, w: Weather)
    ensures Reduced(ins, d, a, volume, w).memory == d.memory
  {
  }

  lemma DueIsOne(cfg: Settings, mask: set<nat>, r: real, i: nat)
    requires FirstDue(cfg, mask, r, i)
    ensures forall j :: FirstDue(cfg, mask, r, j) ==> j == i
  {
  }

  lemma LevelIs(cfg: Settings, ins: Instrument, r: real, d: Desk, w: Weather)
    requires ins.Valid() && !d.crashed
    ensures LevelSays(cfg, ins, r, d, PartiallyClosed(cfg, ins, Some(r), d, w), w)
  {
    hide LevelHandled, LevelVolume, DueSays;
    if cfg.levels != [] && cfg.percents != [] && d.local.volume > ins.minVolume {
      var i := NextLevel(cfg.levels, d.memory.mask, r, 0);
      NextIsFirst(cfg.levels, d.memory.mask, r, 0);
      if i < |cfg.levels| && i < MAX_LEVELS {
        DueIs(cfg, ins, r, d, w, i);
        DueIsOne(cfg, d.memory.mask, r, i);
      }
    }
  }

  lemma RuleIs(ins: Instrument, mkt: Market, d: Desk, w: Weather)
    requires ins.Valid() && !d.crashed
    ensures RuleSays(ins, mkt, d, RuleApplied(ins, mkt, d, w), w)
  {
    hide Reduced, Closes, CloseConfirmed, IsDone, RuleVolume;
    if d.memory.rule.Some? && d.local.volume > ins.minVolume && RuleIsHit(ins, mkt, d.memory.rule.value) {
      var v := RuleVolume(ins, d, d.memory.rule.value);
      RuleVolumeIs(ins, d, d.memory.rule.value);
      ReducedIs(ins, d, Dynamic(d.memory.rule.value.ruleId), v, w);
      ReducedRemembers(ins, d, Dynamic(d.memory.rule.value.ruleId), v, w);
      assert RuleOrdered(ins, d, RuleApplied(ins, mkt, d, w), w, v);
    }
  }

  lemma RuleVolumeIs(ins: Instrument, d: Desk, rule: Rule)
    requires ins.Valid() && d.local.volume > ins.minVolume
    ensures IsRuleVolume(ins, d.local.volume, rule, RuleVolume(ins, d, rule))
  {
    MultipleOf((d.local.volume - ins.minVolume) / ins.stepVolume, ins.stepVolume);
  }

  lemma EvenIs(cfg: Settings, ins: Instrument, r: real, d: Desk, w: Weather)
    requires ins.Valid() && !d.crashed
    ensures EvenSays(cfg, ins, r, d, BrokenEven(cfg, ins, Some(r), d, w), w)
  {
    hide Protected, Protects, ProtectionConfirmed, IsDone, IsAway, IsTicks;
    hide Instrument.PriceAt, Instrument.Ticks;
    if cfg.breakEvenAtR > 0.0 && r >= cfg.breakEvenAtR && !d.memory.beDone {
      var target := ins.PriceAt(cfg.breakEvenOffsetPoints);
      AwayIs(ins, cfg.breakEvenOffsetPoints);
      TicksAre(ins, target);
      ProtectedIs(ins, d, BreakEven(ins.Ticks(target)), target, d.local.take, w);
      ProtectedRemembers(ins, d, BreakEven(ins.Ticks(target)), target, d.local.take, w);
      assert EvenOrdered(ins, d, BrokenEven(cfg, ins, Some(r), d, w), w, target, ins.Ticks(target));
    }
  }

  lemma ProtectedRemembers(ins: Instrument, d: Desk, a: Action, stop: real, take: real, w: Weather)
    ensures Protected(ins, d, a, stop, take, w).memory == d.memory
  {
  }

  lemma RIs(ins: Instrument, price: real, risk: real)
    requires ins.Valid()
    ensures IsR(ins, price, risk, CurrentR(ins.side, ins.openPrice, price, ins.point, risk))
  {
    if price > 0.0 && risk > 0.0 {
      var gain := if ins.side == Buy then price - ins.openPrice else ins.openPrice - price;
      QuotientOfQuotient(gain, ins.point, risk);
    }
  }

  lemma QuotientOfQuotient(x: real, p: real, k: real)
    requires p > 0.0 && k > 0.0
    ensures x / p / k * k * p == x
  {
    var y := x / p;
    assert y * p == x;
    assert y / k * k == y;
  }

  // ---- The cycle ----

  /** Whether the position has come to the R at which all of it is closed. */
  predicate FullCloseDue(cfg: Settings, r: real) {
    0.0 < cfg.closeAtR <= r
  }

  /** The stages in their order. `a`, `b` and `c` are the desks between them; where the process dies, the rest does not happen.
      Without a price nothing is compared with R. */
  ghost predicate CycleSays(cfg: Settings, ins: Instrument, mkt: Market, start: Desk, end: Desk, f: Forecast, a: Desk, b: Desk, c: Desk)
    requires ins.Valid()
  {
    && AttachSays(cfg, ins, mkt, start, a, f.attach)
    && (a.crashed ==> end == a)
    && (!a.crashed && mkt.price.None? ==> b == a && RuleSays(ins, mkt, b, c, f.rule) && end == c)
    && (!a.crashed && mkt.price.Some? ==> exists r: real :: IsR(ins, mkt.price.value, start.memory.riskPoints, r) && RestSays(cfg, ins, mkt, end, f, a, b, c, r))
  }

  ghost predicate RestSays(cfg: Settings, ins: Instrument, mkt: Market, end: Desk, f: Forecast, a: Desk, b: Desk, c: Desk, r: real)
    requires ins.Valid()
  {
    if FullCloseDue(cfg, r) then Closes(ins, a, end, CloseAtR(cfg.closeAtR), a.local.volume, f.close)
    else
      && LevelSays(cfg, ins, r, a, b, f.partial)
      && (b.crashed ==> end == b)
      && (!b.crashed ==> RuleSays(ins, mkt, b, c, f.rule) && if c.crashed then end == c else EvenSays(cfg, ins, r, c, end, f.even))
  }

  /** Every cycle of the manager goes like this. */
  lemma CycleIs(cfg: Settings, ins: Instrument, mkt: Market, start: Desk, f: Forecast) returns (a: Desk, b: Desk, c: Desk)
    requires ins.Valid() && !start.crashed
    ensures CycleSays(cfg, ins, mkt, start, Cycle(cfg, ins, mkt, start, f), f, a, b, c)
  {
    hide Attached, PartiallyClosed, RuleApplied, BrokenEven, Reduced, Closes, AttachSays, LevelSays, RuleSays, EvenSays, IsR;
    a := Attached(cfg, ins, mkt, start, f.attach);
    AttachIs(cfg, ins, mkt, start, f.attach);
    AttachKeepsVolume(cfg, ins, mkt, start, f.attach);
    b, c := a, a;
    if !a.crashed {
      if mkt.price.None? {
        c := RuleApplied(ins, mkt, a, f.rule);
        RuleIs(ins, mkt, a, f.rule);
        NoPriceNoLevel(cfg, ins, a, c, f);
      } else {
        var r := CurrentR(ins.side, ins.openPrice, mkt.price.value, ins.point, start.memory.riskPoints);
        RIs(ins, mkt.price.value, start.memory.riskPoints);
        b := PartiallyClosed(cfg, ins, Some(r), a, f.partial);
        LevelIs(cfg, ins, r, a, f.partial);
        if FullCloseDue(cfg, r) { ReducedIs(ins, a, CloseAtR(cfg.closeAtR), a.local.volume, f.close); }
        if !b.crashed {
          c := RuleApplied(ins, mkt, b, f.rule);
          RuleIs(ins, mkt, b, f.rule);
          if !c.crashed { EvenIs(cfg, ins, r, c, f.even); }
        }
        assert RestSays(cfg, ins, mkt, Cycle(cfg, ins, mkt, start, f), f, a, b, c, r);
      }
    }
  }

  lemma NoPriceNoLevel(cfg: Settings, ins: Instrument, d: Desk, c: Desk, f: Forecast)
    requires ins.Valid()
    ensures PartiallyClosed(cfg, ins, None, d, f.partial) == d && BrokenEven(cfg, ins, None, c, f.even) == c
  {
  }

  /** What the manager starts from: the stored memory, or a fresh one, whose risk is the distance of the stop and, where there
      is none, the default one; and what it stores in the end. */
  lemma MemorySays(cfg: Settings, ins: Instrument, books: Books, truth: Holding, stored: Option<Memory>, end: Desk, f: Forecast)
    requires ins.Valid()
    ensures
      var start := Opened(cfg, ins, books, truth, stored);
      var m := start.memory;
      && start.books == books && start.truth == truth && start.local == truth && !start.crashed
      && (stored.Some? ==> m == stored.value)
      && (stored.None? ==>
            && m.originalVolume == truth.volume && m.mask == {} && !m.beDone && m.rule.None?
            && (if truth.stop > 0.0 && truth.stop != ins.openPrice
                then m.riskPoints > 0.0 && Within(ins.openPrice, truth.stop, m.riskPoints * ins.point)
                     && (m.riskPoints * ins.point == ins.openPrice - truth.stop || m.riskPoints * ins.point == truth.stop - ins.openPrice)
                else m.riskPoints == cfg.slPoints))
      && Saved(start, end, f) == (if f.saves && !end.crashed then end.memory else m)
  {
    if stored.None? && truth.stop > 0.0 && truth.stop != ins.openPrice {
      var gap := if ins.openPrice >= truth.stop then ins.openPrice - truth.stop else truth.stop - ins.openPrice;
      var risk := gap / ins.point;
      assert risk * ins.point == gap && risk > 0.0;
    }
  }
}
