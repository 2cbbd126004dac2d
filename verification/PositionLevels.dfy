/** Which level a cycle closes, and how much of the position. */
module PositionLevels {
  import opened Common
  import opened ManagerDomain
  import opened MutationLedger
  import opened PositionManager
  import opened PositionOutcomes

  /** A volume the broker takes: whole steps, at least the minimum, and at least the minimum stays open. */
  predicate Closable(ins: Instrument, held: int, v: int) {
    ins.stepVolume > 0 && v % ins.stepVolume == 0 && v >= ins.minVolume && held - v >= ins.minVolume
  }

  /** The multiple of `step` nearest to `exact`; halves go up. */
  predicate Nearest(q: int, exact: real, step: int) {
    step > 0 && q % step == 0 && -(step as real) < 2.0 * (q as real - exact) <= step as real
  }

  /** The percentage of a level, and the volume it is a percentage of. */
  predicate ShareOf(cfg: Settings, originalVolume: int, held: int, i: nat, percent: real, base: int) {
    && cfg.percents != []
    && percent == (if i < |cfg.percents| then cfg.percents[i] else cfg.percents[|cfg.percents| - 1])
    && base == (if |cfg.percents| == 1 then held else originalVolume)
  }

  /** The first level that the position has reached and whose bit is not set. */
  predicate FirstDue(cfg: Settings, mask: set<nat>, r: real, i: nat) {
    && i < |cfg.levels| && i < 30 && i !in mask && cfg.levels[i] <= r
    && forall j :: 0 <= j < i ==> j in mask || r < cfg.levels[j]
  }

  lemma {:induction false} NextIsFirst(levels: seq<real>, mask: set<nat>, r: real, from: nat)
    requires from <= |levels|
    ensures forall j :: from <= j < NextLevel(levels, mask, r, from) ==> j in mask || r < levels[j]
    decreases |levels| - from
  {
    if from < |levels| && from < MAX_LEVELS && !(from !in mask && r >= levels[from]) { NextIsFirst(levels, mask, r, from + 1); }
  }

  /** A positive level volume is the largest closable one not above the step nearest to the level's share. */
  lemma LevelVolumeIsLargest(cfg: Settings, ins: Instrument, d: Desk, i: nat) returns (percent: real, base: int, q: int)
    requires ins.Valid() && cfg.percents != [] && LevelVolume(cfg, ins, d, i) > 0
    ensures ShareOf(cfg, d.memory.originalVolume, d.local.volume, i, percent, base)
    ensures Nearest(q, base as real * percent / 100.0, ins.stepVolume)
    ensures Closable(ins, d.local.volume, LevelVolume(cfg, ins, d, i)) && LevelVolume(cfg, ins, d, i) <= q
    ensures forall u :: Closable(ins, d.local.volume, u) && u <= q ==> u <= LevelVolume(cfg, ins, d, i)
  {
    percent := PercentFor(cfg, i);
    base := if |cfg.percents| > 1 then d.memory.originalVolume else d.local.volume;
    q := RequestedRaw(base, percent, ins.stepVolume);
    RequestedIsNearest(base, percent, ins.stepVolume);
    var several := |cfg.percents| > 1;
    PartialCloseFits(d.local.volume, d.memory.originalVolume, percent, ins.minVolume, ins.stepVolume, several);
    NotAboveRequest(d.local.volume, d.memory.originalVolume, percent, ins.minVolume, ins.stepVolume, several);
    hide RequestedRaw, NormalizePartialCloseRaw;
    forall u | Closable(ins, d.local.volume, u) && u <= q ensures u <= LevelVolume(cfg, ins, d, i) {
      PartialCloseIsLargest(d.local.volume, d.memory.originalVolume, percent, ins.minVolume, ins.stepVolume, several, u);
    }
  }

  lemma NotAboveRequest(current: int, original: int, percent: real, minVolume: int, stepVolume: int, originalMode: bool)
    requires minVolume >= 1 && stepVolume >= 1
    requires NormalizePartialCloseRaw(current, original, percent, minVolume, stepVolume, originalMode) > 0
    ensures percent > 0.0
    ensures NormalizePartialCloseRaw(current, original, percent, minVolume, stepVolume, originalMode)
         <= RequestedRaw(if originalMode then original else current, percent, stepVolume)
  {
    hide RequestedRaw;
  }

  /** The books gain one call, of this level and volume. */
  predicate Sent(before: Books, after: Books, i: nat, v: int) {
    && |after.calls| == |before.calls| + 1 && after.calls[..|before.calls|] == before.calls
    && after.calls[|before.calls|].key.action == RPartial(i, v) && after.calls[|before.calls|].volume == v
  }

  /** What a level's close is about: the first due level and the largest closable volume of its share. */
  ghost predicate RightClose(cfg: Settings, ins: Instrument, m: Memory, held: int, r: real, i: nat, v: int) {
    && FirstDue(cfg, m.mask, r, i) && Closable(ins, held, v)
    && exists percent: real, base, q :: RightShare(cfg, ins, m, held, i, v, percent, base, q)
  }

  ghost predicate RightShare(cfg: Settings, ins: Instrument, m: Memory, held: int, i: nat, v: int, percent: real, base: int, q: int) {
    && ShareOf(cfg, m.originalVolume, held, i, percent, base)
    && Nearest(q, base as real * percent / 100.0, ins.stepVolume)
    && v <= q && forall u :: Closable(ins, held, u) && u <= q ==> u <= v
  }

  /** The partial stage sends nothing, or the one call that is right. */
  lemma PartialSendsRight(cfg: Settings, ins: Instrument, r: Option<real>, d: Desk, w: Weather)
    requires ins.Valid()
    ensures
      var after := PartiallyClosed(cfg, ins, r, d, w);
      after.books.calls == d.books.calls
      || (r.Some? && exists i, v :: Sent(d.books, after.books, i, v) && RightClose(cfg, ins, d.memory, d.local.volume, r.value, i, v))
  {
    var after := PartiallyClosed(cfg, ins, r, d, w);
    if after.books.calls != d.books.calls {
      var i := NextLevel(cfg.levels, d.memory.mask, r.value, 0);
      NextIsFirst(cfg.levels, d.memory.mask, r.value, 0);
      var v := LevelVolume(cfg, ins, d, i);
      LevelCallIs(ins, d, i, v, w);
      hide PartiallyClosed, LevelVolume;
      var percent, base, q := LevelVolumeIsLargest(cfg, ins, d, i);
      assert RightShare(cfg, ins, d.memory, d.local.volume, i, v, percent, base, q);
    }
  }

  lemma LevelCallIs(ins: Instrument, d: Desk, i: nat, v: int, w: Weather)
    ensures LevelHandled(ins, d, i, v, w).books.calls == d.books.calls || Sent(d.books, LevelHandled(ins, d, i, v, w).books, i, v)
  {
  }

  /** Every call of an R level that a cycle sends closes the first reached, unmarked level, by the largest closable volume not
      above the step nearest to its own percentage: of the original volume when there are several percentages, of what is
      held when there is one. */
  lemma CycleClosesRightShare(cfg: Settings, ins: Instrument, mkt: Market, start: Desk, f: Forecast, n: nat)
    requires ins.Valid() && mkt.price.Some?
    requires
      var calls := Cycle(cfg, ins, mkt, start, f).books.calls;
      |start.books.calls| <= n < |calls| && calls[n].key.action.RPartial?
    ensures
      var call := Cycle(cfg, ins, mkt, start, f).books.calls[n];
      && call.volume == call.key.action.volume
      && RightClose(cfg, ins, start.memory, start.local.volume, R(ins, mkt, start.memory).value, call.key.action.index, call.volume)
  {
    hide Attached, PartiallyClosed, RuleApplied, BrokenEven, Reduced, R, CloseFires, RightClose, NoneSent, Spent;
    var none: Key -> bool := (k: Key) => k.action.RPartial?;
    var d1 := Attached(cfg, ins, mkt, start, f.attach);
    AttachKeepsVolume(cfg, ins, mkt, start, f.attach);
    NoLevelElsewhere(start.books);
    AttachSends(cfg, ins, mkt, start, f.attach, none);
    var end := Cycle(cfg, ins, mkt, start, f);
    NoneSentMeans(start.books, d1.books, none);
    var r := R(ins, mkt, d1.memory);
    assert r == R(ins, mkt, start.memory);
    PriceGivesR(ins, mkt, start.memory);
    if d1.crashed {
    } else if CloseFires(cfg, r) {
      NoLevelElsewhere(d1.books);
      CloseSends(ins, d1, CloseAtR(cfg.closeAtR), d1.local.volume, f.close, none);
      NoneSentMeans(d1.books, end.books, none);
      CallBefore(start.books, d1.books, end.books, n);
    } else {
      var d2 := PartiallyClosed(cfg, ins, r, d1, f.partial);
      PartialSendsRight(cfg, ins, r, d1, f.partial);
      NoLevelElsewhere(d2.books);
      TailSends(cfg, ins, mkt, r, d2, f, none);
      assert end == if d2.crashed then d2 else Tail(cfg, ins, mkt, r, d2, f);
      if !d2.crashed { NoneSentMeans(d2.books, end.books, none); }
    }
  }

  lemma PriceGivesR(ins: Instrument, mkt: Market, m: Memory)
    requires ins.Valid() && mkt.price.Some?
    ensures R(ins, mkt, m).Some?
  {
  }

  lemma CallBefore(a: Books, b: Books, c: Books, n: nat)
    requires a.calls <= b.calls <= c.calls && |a.calls| <= n < |c.calls|
    requires forall k :: |a.calls| <= k < |b.calls| ==> !b.calls[k].key.action.RPartial?
    requires forall k :: |b.calls| <= k < |c.calls| ==> !c.calls[k].key.action.RPartial?
    ensures !c.calls[n].key.action.RPartial?
  {
    if n < |b.calls| { assert b.calls[n] == c.calls[n]; }
  }

  lemma NoneSentMeans(b: Books, next: Books, bad: Key -> bool)
    requires NoneSent(b, next, bad)
    ensures b.calls <= next.calls && forall k :: |b.calls| <= k < |next.calls| ==> !bad(next.calls[k].key)
  {
  }

  lemma NoLevelElsewhere(b: Books)
    ensures Spent(b, (k: Key) => k.action.RPartial?, (a: Action) => a.Protect?)
    ensures Spent(b, (k: Key) => k.action.RPartial?, (a: Action) => a.Dynamic?)
    ensures Spent(b, (k: Key) => k.action.RPartial?, (a: Action) => a.CloseAtR?)
    ensures Spent(b, (k: Key) => k.action.RPartial?, (a: Action) => a.BreakEven?)
  {
  }
}
