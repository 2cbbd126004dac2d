/** Folding a deal stream into position episodes. */
module Episodes {
  import opened Common
  import opened Ordering

  const VOLUME_EPSILON: real := 0.00000001

  datatype Entry = In | Out | OutBy | InOut

  /** A connector deal; the currencies and the symbol are already trimmed and upper-cased. */
  datatype Deal = Deal(
    ticket: string, orderTicket: string, positionId: string, symbol: string,
    base: string, quote: string, forexCalc: bool, point: real, digits: int, pipSizeOverride: real,
    timeMsc: int, offsetMinutes: int, entry: Entry, side: Side,
    volume: real, price: real, profit: real, commission: real, swap: real, fee: real,
    sl: real, tp: real, sltpSnapshotReliable: bool, sltpTimelineComplete: bool)
  {
    function CanonicalSymbol(): string {
      if base != "" && quote != "" then base + quote else symbol
    }

    function PipSize(): real {
      if pipSizeOverride > 0.0 then pipSizeOverride
      else if forexCalc && |base| == 3 && |quote| == 3 && point > 0.0 then
        (if digits == 3 || digits == 5 then point * 10.0 else point)
      else 0.0
    }

    function Pnl(): real {
      profit + commission + swap + fee
    }

    predicate Identified() {
      positionId != "" && symbol != ""
    }
  }

  datatype ExtraEntry = ExtraEntry(
    timeMsc: int, orderTicket: string, dealTicket: string, price: real,
    previousWeightedPrice: real, newWeightedPrice: real, adverse: bool)

  /** The value of an episode. `entryPrices` lists the prices of the deals merged into it. */
  datatype EpisodeValue = EpisodeValue(
    positionId: string, canonicalSymbol: string, side: Side, offsetMinutes: int,
    firstEntryMsc: int, finalCloseMsc: int, openingDealTicket: string, openingOrderTicket: string,
    additionalEntries: seq<ExtraEntry>, initialVolume: real, currentVolume: real,
    openingPrice: real, weightedPrice: real, netProfit: real, open: bool,
    sltpEvidenceComplete: bool, maxSltpDistancePips: real, entryPrices: seq<real>)
  {
    predicate Serves(d: Deal) {
      open && positionId == d.positionId && canonicalSymbol == d.CanonicalSymbol()
    }
  }

  function Max(a: real, b: real): real { if a >= b then a else b }
  function Min(a: real, b: real): real { if a <= b then a else b }
  function Abs(a: real): real { if a >= 0.0 then a else -a }

  function ObservedPips(seen: real, d: Deal): real {
    if !d.sltpSnapshotReliable || d.PipSize() <= 0.0 then seen
    else
      var afterSl := if d.sl > 0.0 then Max(seen, Abs(d.price - d.sl) / d.PipSize()) else seen;
      if d.tp > 0.0 then Max(afterSl, Abs(d.price - d.tp) / d.PipSize()) else afterSl
  }

  function Created(d: Deal): EpisodeValue {
    EpisodeValue(
      d.positionId, d.CanonicalSymbol(), d.side, d.offsetMinutes, d.timeMsc, 0, d.ticket, d.orderTicket,
      [], d.volume, d.volume, d.price, d.price, d.Pnl(), true,
      d.sltpTimelineComplete, ObservedPips(0.0, d), [d.price])
  }

  /** The volume-weighted price after merging a deal. */
  function Weighted(price: real, volume: real, d: Deal): real {
    if volume + d.volume > 0.0 then (price * volume + d.price * d.volume) / (volume + d.volume) else price
  }

  /** A further fill of the opening order is not an additional entry. */
  predicate SameOrder(openingOrderTicket: string, d: Deal) {
    d.orderTicket != "" && d.orderTicket == openingOrderTicket
  }

  function Noted(side: Side, before: real, after: real, d: Deal): ExtraEntry {
    ExtraEntry(d.timeMsc, d.orderTicket, d.ticket, d.price, before, after,
               if side == Buy then d.price < before else d.price > before)
  }

  function Added(e: EpisodeValue, d: Deal): EpisodeValue {
    var newPrice := Weighted(e.weightedPrice, e.currentVolume, d);
    e.(additionalEntries := if SameOrder(e.openingOrderTicket, d) then e.additionalEntries
                            else e.additionalEntries + [Noted(e.side, e.weightedPrice, newPrice, d)],
       weightedPrice := newPrice,
       currentVolume := e.currentVolume + d.volume,
       netProfit := e.netProfit + d.Pnl(),
       sltpEvidenceComplete := e.sltpEvidenceComplete && d.sltpTimelineComplete,
       maxSltpDistancePips := ObservedPips(e.maxSltpDistancePips, d),
       entryPrices := e.entryPrices + [d.price])
  }

  function Reduced(e: EpisodeValue, d: Deal): EpisodeValue {
    var left := Max(0.0, e.currentVolume - d.volume);
    var closed := left <= VOLUME_EPSILON;
    e.(netProfit := e.netProfit + d.Pnl(),
       sltpEvidenceComplete := e.sltpEvidenceComplete && d.sltpTimelineComplete,
       maxSltpDistancePips := ObservedPips(e.maxSltpDistancePips, d),
       currentVolume := if closed then 0.0 else left,
       open := if closed then false else e.open,
       finalCloseMsc := if closed then d.timeMsc else e.finalCloseMsc)
  }

  function Reversed(e: EpisodeValue, d: Deal): EpisodeValue {
    Reduced(e, d.(volume := Min(e.currentVolume, d.volume))).(currentVolume := 0.0, open := false, finalCloseMsc := d.timeMsc)
  }

  function Residual(eps: seq<EpisodeValue>, d: Deal): seq<EpisodeValue> {
    if d.volume > VOLUME_EPSILON then [Created(d.(profit := 0.0, commission := 0.0, swap := 0.0, fee := 0.0))] else []
  }

  /** Index of the newest open episode a deal belongs to, or -1. */
  function FindOpen(eps: seq<EpisodeValue>, d: Deal): (i: int)
    ensures -1 <= i < |eps|
    ensures i >= 0 ==> eps[i].Serves(d)
    ensures forall k :: i < k < |eps| ==> !eps[k].Serves(d)
  {
    if eps == [] then -1
    else if eps[|eps| - 1].Serves(d) then |eps| - 1
    else FindOpen(eps[..|eps| - 1], d)
  }

  /** One deal applied to the episodes built so far. */
  function Apply(eps: seq<EpisodeValue>, d: Deal): seq<EpisodeValue> {
    if !d.Identified() then eps
    else
      var i := FindOpen(eps, d);
      match d.entry
      case In => if i >= 0 then eps[i := Added(eps[i], d)] else eps + [Created(d)]
      case Out => if i >= 0 then eps[i := Reduced(eps[i], d)] else eps
      case OutBy => if i >= 0 then eps[i := Reduced(eps[i], d)] else eps
      case InOut =>
        if i >= 0 then
          eps[i := Reversed(eps[i], d)] + Residual(eps, d.(volume := Max(0.0, d.volume - eps[i].currentVolume)))
        else eps + Residual(eps, d)
  }

  function Run(deals: seq<Deal>): seq<EpisodeValue> {
    if deals == [] then [] else Apply(Run(deals[..|deals| - 1]), deals[|deals| - 1])
  }

  predicate Earlier(a: Deal, b: Deal) {
    a.timeMsc < b.timeMsc || (a.timeMsc == b.timeMsc && !Less(b.ticket, a.ticket))
  }

  lemma EarlierIsPreorder()
    ensures TotalPreorder(Earlier)
  {
    forall a: Deal, b: Deal ensures Earlier(a, b) || Earlier(b, a) {
      LessTotal(a.ticket, b.ticket);
    }
    forall a: Deal, b: Deal, c: Deal | Earlier(a, b) && Earlier(b, c) ensures Earlier(a, c) {
      LessTotal(a.ticket, b.ticket);
      LessTotal(b.ticket, c.ticket);
      LessTotal(a.ticket, c.ticket);
      if Less(c.ticket, a.ticket) {
        if Less(a.ticket, b.ticket) { LessTransitive(c.ticket, a.ticket, b.ticket); }
      }
    }
  }

  // ---- What every processed deal keeps ----

  function Lowest(ps: seq<real>): (r: real)
    requires ps != []
    ensures r in ps && forall p :: p in ps ==> r <= p
  {
    if |ps| == 1 then ps[0]
    else
      assert forall p :: p in ps ==> p in ps[..|ps| - 1] || p == ps[|ps| - 1];
      Min(Lowest(ps[..|ps| - 1]), ps[|ps| - 1])
  }

  function Highest(ps: seq<real>): (r: real)
    requires ps != []
    ensures r in ps && forall p :: p in ps ==> p <= r
  {
    if |ps| == 1 then ps[0]
    else
      assert forall p :: p in ps ==> p in ps[..|ps| - 1] || p == ps[|ps| - 1];
      Max(Highest(ps[..|ps| - 1]), ps[|ps| - 1])
  }

  ghost predicate Sound(e: EpisodeValue, latest: int) {
    && e.entryPrices != []
    && Lowest(e.entryPrices) <= e.weightedPrice <= Highest(e.entryPrices)
    && e.currentVolume >= 0.0
    && e.firstEntryMsc <= latest
    && (!e.open ==> e.currentVolume == 0.0 && e.firstEntryMsc <= e.finalCloseMsc <= latest)
  }

  ghost predicate OneOpenEach(eps: seq<EpisodeValue>) {
    forall i, j :: 0 <= i < j < |eps| && eps[i].open && eps[j].open
      ==> !(eps[i].positionId == eps[j].positionId && eps[i].canonicalSymbol == eps[j].canonicalSymbol)
  }

  ghost predicate AllSound(eps: seq<EpisodeValue>, latest: int) {
    OneOpenEach(eps) && forall i :: 0 <= i < |eps| ==> Sound(eps[i], latest)
  }

  lemma WeightedBetween(price: real, volume: real, d: Deal, lo: real, hi: real)
    requires volume >= 0.0 && d.volume >= 0.0
    requires lo <= price <= hi && lo <= d.price <= hi
    ensures lo <= Weighted(price, volume, d) <= hi
  {
    var total := volume + d.volume;
    if total > 0.0 {
      MixBetween(lo, price, d.price, hi, volume, d.volume);
      DivideBetween(price * volume + d.price * d.volume, total, lo, hi);
    }
  }

  lemma Scale(a: real, b: real, k: real)
    requires a <= b && k >= 0.0
    ensures a * k <= b * k
  {
  }

  lemma Distribute(a: real, v: real, w: real)
    ensures a * (v + w) == a * v + a * w
  {
  }

  lemma MixBetween(lo: real, p: real, q: real, hi: real, v: real, w: real)
    requires lo <= p <= hi && lo <= q <= hi && v >= 0.0 && w >= 0.0
    ensures lo * (v + w) <= p * v + q * w <= hi * (v + w)
  {
    Distribute(lo, v, w);
    Distribute(hi, v, w);
    Scale(lo, p, v);
    Scale(p, hi, v);
    Scale(lo, q, w);
    Scale(q, hi, w);
  }

  lemma DivideBetween(x: real, total: real, lo: real, hi: real)
    requires total > 0.0 && lo * total <= x <= hi * total
    ensures lo <= x / total <= hi
  {
  }

  lemma AddedSound(e: EpisodeValue, d: Deal, latest: int)
    requires Sound(e, latest) && e.open && d.volume >= 0.0 && latest <= d.timeMsc
    ensures Sound(Added(e, d), d.timeMsc)
  {
    var ps := e.entryPrices + [d.price];
    assert ps[..|ps| - 1] == e.entryPrices;
    WeightedBetween(e.weightedPrice, e.currentVolume, d, Lowest(ps), Highest(ps));
  }

  lemma ApplySound(eps: seq<EpisodeValue>, d: Deal, latest: int)
    requires AllSound(eps, latest) && latest <= d.timeMsc && d.volume >= 0.0
    ensures AllSound(Apply(eps, d), d.timeMsc)
  {
    var i := FindOpen(eps, d);
    if d.Identified() {
      if d.entry == In {
        if i >= 0 {
          AddedSound(eps[i], d, latest);
          ReplaceSound(eps, i, Added(eps[i], d), latest, d.timeMsc);
        } else {
          AppendSound(eps, d, d, latest);
        }
      } else if d.entry != InOut {
        if i >= 0 {
          ReducedSound(eps[i], d, latest);
          ReplaceSound(eps, i, Reduced(eps[i], d), latest, d.timeMsc);
        }
      } else {
        ReverseSound(eps, d, latest);
      }
    }
  }

  lemma ReducedSound(e: EpisodeValue, d: Deal, latest: int)
    requires Sound(e, latest) && e.open && latest <= d.timeMsc
    ensures Sound(Reduced(e, d), d.timeMsc) && Sound(Reversed(e, d), d.timeMsc)
  {
    hide ObservedPips, Lowest, Highest;
  }

  /** Replacing an open episode by a sound one of the same position keeps the invariant. */
  lemma ReplaceSound(eps: seq<EpisodeValue>, i: nat, e: EpisodeValue, latest: int, now: int)
    requires AllSound(eps, latest) && latest <= now && i < |eps| && eps[i].open && Sound(e, now)
    requires e.positionId == eps[i].positionId && e.canonicalSymbol == eps[i].canonicalSymbol
    ensures AllSound(eps[i := e], now)
  {
    hide Lowest, Highest;
  }

  /** Opening an episode for a deal that no open episode serves keeps the invariant. */
  lemma AppendSound(eps: seq<EpisodeValue>, key: Deal, d: Deal, latest: int)
    requires AllSound(eps, latest) && latest <= d.timeMsc && d.volume >= 0.0
    requires forall k :: 0 <= k < |eps| ==> !eps[k].Serves(key)
    requires d.positionId == key.positionId && d.CanonicalSymbol() == key.CanonicalSymbol()
    ensures AllSound(eps + [Created(d)], d.timeMsc)
  {
    hide ObservedPips;
  }

  lemma ReverseSound(eps: seq<EpisodeValue>, d: Deal, latest: int)
    requires AllSound(eps, latest) && latest <= d.timeMsc && d.volume >= 0.0
    requires d.Identified() && d.entry == InOut
    ensures AllSound(Apply(eps, d), d.timeMsc)
  {
    hide Lowest, Highest, ObservedPips, Created, Reversed, Reduced;
    var i := FindOpen(eps, d);
    var mid, seed := eps, d;
    if i >= 0 {
      ReducedSound(eps[i], d, latest);
      ReversedKeeps(eps[i], d);
      ReplaceSound(eps, i, Reversed(eps[i], d), latest, d.timeMsc);
      mid := eps[i := Reversed(eps[i], d)];
      seed := d.(volume := Max(0.0, d.volume - eps[i].currentVolume));
    }
    assert Apply(eps, d) == mid + Residual(eps, seed);
    if seed.volume > VOLUME_EPSILON {
      var fresh' := seed.(profit := 0.0, commission := 0.0, swap := 0.0, fee := 0.0);
      AppendSound(mid, d, fresh', if i >= 0 then d.timeMsc else latest);
      assert Residual(eps, seed) == [Created(fresh')];
    } else {
      assert mid + Residual(eps, seed) == mid;
    }
  }

  lemma ReversedKeeps(e: EpisodeValue, d: Deal)
    ensures !Reversed(e, d).open
    ensures Reversed(e, d).positionId == e.positionId && Reversed(e, d).canonicalSymbol == e.canonicalSymbol
  {
  }

  /** After any time-ordered stream of deals with non-negative volumes: at most one episode per
      (position, symbol) is open, closed episodes are empty and close no earlier than they opened, and
      the weighted price lies between the lowest and highest merged entry price. */
  lemma {:induction false} EpisodesStaySound(deals: seq<Deal>)
    requires Sorted(deals, Earlier) && forall d :: d in deals ==> d.volume >= 0.0
    requires deals != []
    ensures AllSound(Run(deals), deals[|deals| - 1].timeMsc)
  {
    var last := |deals| - 1;
    var before := deals[..last];
    if before == [] {
      assert Run(before) == [];
      ApplySound([], deals[last], deals[last].timeMsc);
    } else {
      EpisodesStaySound(before);
      assert Earlier(deals[last - 1], deals[last]);
      ApplySound(Run(before), deals[last], before[|before| - 1].timeMsc);
    }
  }

  // ---- Conservation of profit ----

  function TotalProfit(eps: seq<EpisodeValue>): real {
    if eps == [] then 0.0 else TotalProfit(eps[..|eps| - 1]) + eps[|eps| - 1].netProfit
  }

  function TotalPnl(deals: seq<Deal>): real {
    if deals == [] then 0.0 else TotalPnl(deals[..|deals| - 1]) + deals[|deals| - 1].Pnl()
  }

  /** The deal reaches no episode's profit: it lacks an identity, or it reduces a position that has none open. */
  predicate Dropped(before: seq<Deal>, d: Deal) {
    !d.Identified() || (d.entry != In && FindOpen(Run(before), d) < 0)
  }

  function DroppedPnl(deals: seq<Deal>): real {
    if deals == [] then 0.0
    else
      var before := deals[..|deals| - 1];
      var d := deals[|deals| - 1];
      DroppedPnl(before) + if Dropped(before, d) then d.Pnl() else 0.0
  }

  lemma {:induction false} UpdateMovesTotal(eps: seq<EpisodeValue>, i: nat, e: EpisodeValue)
    requires i < |eps|
    ensures TotalProfit(eps[i := e]) == TotalProfit(eps) - eps[i].netProfit + e.netProfit
  {
    var last := |eps| - 1;
    var after := eps[i := e];
    if i == last {
      assert after[..last] == eps[..last];
    } else {
      assert after[..last] == eps[..last][i := e];
      UpdateMovesTotal(eps[..last], i, e);
    }
  }

  lemma AppendMovesTotal(eps: seq<EpisodeValue>, e: EpisodeValue)
    ensures TotalProfit(eps + [e]) == TotalProfit(eps) + e.netProfit
  {
    assert (eps + [e])[..|eps|] == eps;
  }

  lemma ResidualIsFree(eps: seq<EpisodeValue>, mid: seq<EpisodeValue>, d: Deal)
    ensures TotalProfit(mid + Residual(eps, d)) == TotalProfit(mid)
  {
    var rest := Residual(eps, d);
    if rest == [] { assert mid + rest == mid; } else { AppendMovesTotal(mid, rest[0]); }
  }

  lemma ApplyMovesTotal(eps: seq<EpisodeValue>, d: Deal)
    ensures TotalProfit(Apply(eps, d))
         == TotalProfit(eps) + if !d.Identified() || (d.entry != In && FindOpen(eps, d) < 0) then 0.0 else d.Pnl()
  {
    hide TotalProfit;
    if d.Identified() {
      var i := FindOpen(eps, d);
      if d.entry == InOut {
        var mid := if i >= 0 then eps[i := Reversed(eps[i], d)] else eps;
        if i >= 0 { UpdateMovesTotal(eps, i, Reversed(eps[i], d)); }
        ResidualIsFree(eps, mid, if i >= 0 then d.(volume := Max(0.0, d.volume - eps[i].currentVolume)) else d);
      } else if i >= 0 {
        UpdateMovesTotal(eps, i, if d.entry == In then Added(eps[i], d) else Reduced(eps[i], d));
      } else if d.entry == In {
        AppendMovesTotal(eps, Created(d));
      }
    }
  }

  /** Episode profit is the profit of every deal except exactly the dropped ones. */
  lemma {:induction false} ProfitConserved(deals: seq<Deal>)
    ensures TotalProfit(Run(deals)) + DroppedPnl(deals) == TotalPnl(deals)
  {
    if deals != [] {
      var before := deals[..|deals| - 1];
      ProfitConserved(before);
      ApplyMovesTotal(Run(before), deals[|deals| - 1]);
    }
  }

  /** The documented reading "all deal profit reaches an episode" fails for a reversal with no open
      position: it opens a fresh episode, yet its own profit is lost. */
  lemma ReversalWithoutPositionLosesProfit(d: Deal)
    requires d.Identified() && d.entry == InOut && d.volume > VOLUME_EPSILON
    ensures |Run([d])| == 1 && Run([d])[0].open && Run([d])[0].netProfit == 0.0
    ensures TotalProfit(Run([d])) == TotalPnl([d]) <==> d.Pnl() == 0.0
  {
    assert [d][..0] == [];
    assert Run([d]) == Apply([], d);
    ProfitConserved([d]);
    assert DroppedPnl([d]) == DroppedPnl([]) + d.Pnl();
  }

  /** An addition conserves the cost of the position, and where it is positive, "adverse" is exactly "the average price
      moved against the position". */
  lemma AdverseMovesAverage(e: EpisodeValue, d: Deal)
    requires e.currentVolume >= 0.0 && d.volume > 0.0
    requires !SameOrder(e.openingOrderTicket, d)
    ensures Added(e, d).weightedPrice * Added(e, d).currentVolume == e.weightedPrice * e.currentVolume + d.price * d.volume
    ensures var after := Added(e, d);
            var noted := after.additionalEntries[|after.additionalEntries| - 1];
            (noted.adverse <==> if e.side == Buy then after.weightedPrice < e.weightedPrice
                                else after.weightedPrice > e.weightedPrice)
  {
    var total := e.currentVolume + d.volume;
    var w := Weighted(e.weightedPrice, e.currentVolume, d);
    assert w * total == e.weightedPrice * e.currentVolume + d.price * d.volume;
    assert (w - e.weightedPrice) * total == (d.price - e.weightedPrice) * d.volume;
    SameSign(w - e.weightedPrice, total, d.price - e.weightedPrice, d.volume);
  }

  lemma SameSign(a: real, p: real, b: real, q: real)
    requires p > 0.0 && q > 0.0 && a * p == b * q
    ensures (a < 0.0 <==> b < 0.0) && (a > 0.0 <==> b > 0.0)
  {
    if a > 0.0 { assert a * p > 0.0; }
    if a < 0.0 { assert (-a) * p > 0.0; }
    if b > 0.0 { assert b * q > 0.0; }
    if b < 0.0 { assert (-b) * q > 0.0; }
  }

  /** The deal opened the episode: it fixed its identity, side, opening time, tickets and price. */
  predicate OpenedBy(e: EpisodeValue, d: Deal) {
    && e.positionId == d.positionId && e.canonicalSymbol == d.CanonicalSymbol() && e.side == d.side
    && e.offsetMinutes == d.offsetMinutes && e.firstEntryMsc == d.timeMsc && e.openingPrice == d.price
    && e.openingDealTicket == d.ticket && e.openingOrderTicket == d.orderTicket
    && (d.entry == In ==> e.initialVolume == d.volume) && (d.entry == InOut ==> VOLUME_EPSILON < e.initialVolume <= d.volume)
    && (d.entry == In || d.entry == InOut)
  }

  lemma ApplyKeepsOpeners(eps: seq<EpisodeValue>, d: Deal, k: nat)
    requires k < |Apply(eps, d)| && d.volume >= 0.0
    requires forall i :: 0 <= i < |eps| ==> eps[i].currentVolume >= 0.0
    ensures OpenedBy(Apply(eps, d)[k], d) || (k < |eps| && forall o :: OpenedBy(eps[k], o) ==> OpenedBy(Apply(eps, d)[k], o))
  {
    hide OpenedBy, Created, Added, Reduced, Reversed;
    if d.Identified() {
      var i := FindOpen(eps, d);
      CreationIsOpening(d);
      if i >= 0 {
        ChangesKeepOpener(eps[i], d);
        ResidualIsOpening(eps, d, Max(0.0, d.volume - eps[i].currentVolume));
      } else {
        ResidualIsOpening(eps, d, d.volume);
      }
    }
  }

  lemma CreationIsOpening(d: Deal)
    ensures d.entry == In ==> OpenedBy(Created(d), d)
  {
    hide ObservedPips;
  }

  lemma ResidualIsOpening(eps: seq<EpisodeValue>, d: Deal, volume: real)
    requires volume <= d.volume
    ensures d.entry == InOut ==> forall e :: e in Residual(eps, d.(volume := volume)) ==> OpenedBy(e, d)
  {
    hide ObservedPips;
  }

  lemma ChangesKeepOpener(e: EpisodeValue, d: Deal)
    ensures forall o :: OpenedBy(e, o) ==> OpenedBy(Added(e, d), o) && OpenedBy(Reduced(e, d), o) && OpenedBy(Reversed(e, d), o)
  {
    hide Weighted, ObservedPips, SameOrder, Noted;
  }

  /** Every episode was opened by an IN or INOUT deal of the stream, and keeps what that deal fixed. */
  lemma {:induction false} EveryEpisodeHasItsOpener(deals: seq<Deal>, k: nat) returns (o: Deal)
    requires forall d :: d in deals ==> d.volume >= 0.0
    requires k < |Run(deals)|
    ensures o in deals && OpenedBy(Run(deals)[k], o)
  {
    var n := |deals| - 1;
    var before := Run(deals[..n]);
    VolumesNotNegative(deals[..n]);
    ApplyKeepsOpeners(before, deals[n], k);
    if OpenedBy(Run(deals)[k], deals[n]) {
      o := deals[n];
    } else {
      o := EveryEpisodeHasItsOpener(deals[..n], k);
    }
  }

  lemma {:induction false} VolumesNotNegative(deals: seq<Deal>)
    requires forall d :: d in deals ==> d.volume >= 0.0
    ensures forall i :: 0 <= i < |Run(deals)| ==> Run(deals)[i].currentVolume >= 0.0
  {
    if deals != [] { VolumesNotNegative(deals[..|deals| - 1]); }
  }

  /** The distance in pips between a deal's price and a protective price. */
  function Pips(d: Deal, price: real): real
    requires d.PipSize() > 0.0
  {
    Abs(d.price - price) / d.PipSize()
  }

  /** The observed distance is the least one that covers what was seen and, for a reliable deal, its stop and target. */
  lemma ObservedIsMaximum(seen: real, d: Deal, m: real)
    ensures
      var reliable := d.sltpSnapshotReliable && d.PipSize() > 0.0;
      m >= ObservedPips(seen, d) <==>
        m >= seen && (reliable && d.sl > 0.0 ==> m >= Pips(d, d.sl)) && (reliable && d.tp > 0.0 ==> m >= Pips(d, d.tp))
  {
    hide Deal.PipSize, Abs;
  }

  // ---- The engine's own objects ----

  class Episode {
    const positionId: string
    const canonicalSymbol: string
    const side: Side
    const offsetMinutes: int
    const firstEntryMsc: int
    const openingDealTicket: string
    const openingOrderTicket: string
    const initialVolume: real
    const openingPrice: real
    var finalCloseMsc: int
    var additionalEntries: seq<ExtraEntry>
    var currentVolume: real
    var weightedPrice: real
    var netProfit: real
    var open: bool
    var sltpEvidenceComplete: bool
    var maxSltpDistancePips: real
    ghost var entryPrices: seq<real>

    ghost function Value(): EpisodeValue
      reads this
    {
      EpisodeValue(
        positionId, canonicalSymbol, side, offsetMinutes, firstEntryMsc, finalCloseMsc, openingDealTicket, openingOrderTicket,
        additionalEntries, initialVolume, currentVolume, openingPrice, weightedPrice, netProfit, open,
        sltpEvidenceComplete, maxSltpDistancePips, entryPrices)
    }

    constructor (d: Deal)
      ensures Value() == Created(d)
    {
      positionId, canonicalSymbol, side, offsetMinutes := d.positionId, d.CanonicalSymbol(), d.side, d.offsetMinutes;
      firstEntryMsc, finalCloseMsc := d.timeMsc, 0;
      openingDealTicket, openingOrderTicket := d.ticket, d.orderTicket;
      additionalEntries := [];
      initialVolume, currentVolume := d.volume, d.volume;
      openingPrice, weightedPrice := d.price, d.price;
      netProfit := d.Pnl();
      open := true;
      sltpEvidenceComplete := d.sltpTimelineComplete;
      maxSltpDistancePips := ObservedPips(0.0, d);
      entryPrices := [d.price];
    }

    method AddEntry(d: Deal)
      modifies this
      ensures Value() == Added(old(Value()), d)
    {
      hide Weighted, ObservedPips, SameOrder, Noted;
      var newPrice := Weighted(weightedPrice, currentVolume, d);
      if !SameOrder(openingOrderTicket, d) {
        additionalEntries := additionalEntries + [Noted(side, weightedPrice, newPrice, d)];
      }
      weightedPrice := newPrice;
      currentVolume := currentVolume + d.volume;
      netProfit := netProfit + d.Pnl();
      sltpEvidenceComplete := sltpEvidenceComplete && d.sltpTimelineComplete;
      maxSltpDistancePips := ObservedPips(maxSltpDistancePips, d);
      entryPrices := entryPrices + [d.price];
    }

    method Close(d: Deal)
      modifies this
      ensures Value() == Reduced(old(Value()), d)
    {
      netProfit := netProfit + d.Pnl();
      sltpEvidenceComplete := sltpEvidenceComplete && d.sltpTimelineComplete;
      maxSltpDistancePips := ObservedPips(maxSltpDistancePips, d);
      currentVolume := Max(0.0, currentVolume - d.volume);
      if currentVolume <= VOLUME_EPSILON {
        currentVolume := 0.0;
        open := false;
        finalCloseMsc := d.timeMsc;
      }
    }

    method CloseForReversal(d: Deal)
      modifies this
      ensures Value() == Reversed(old(Value()), d)
    {
      hide Reduced;
      Close(d.(volume := Min(currentVolume, d.volume)));
      currentVolume := 0.0;
      open := false;
      finalCloseMsc := d.timeMsc;
    }
  }

  ghost function Values(es: seq<Episode>): seq<EpisodeValue>
    reads es
  {
    seq(|es|, i requires 0 <= i < |es| reads es => es[i].Value())
  }

  ghost predicate Distinct(es: seq<Episode>) {
    forall i, j :: 0 <= i < j < |es| ==> es[i] != es[j]
  }

  /** Scans the episodes from the newest for the open one a deal belongs to. */
  method FindOpenEpisode(es: seq<Episode>, d: Deal) returns (found: int)
    ensures found == FindOpen(Values(es), d)
  {
    found := |es| - 1;
    ghost var vs := Values(es);
    assert vs[..|es|] == vs;
    while found >= 0 && !(es[found].open && es[found].positionId == d.positionId && es[found].canonicalSymbol == d.CanonicalSymbol())
      invariant -1 <= found < |es|
      invariant FindOpen(vs, d) == FindOpen(vs[..found + 1], d)
    {
      assert vs[..found + 1][..found] == vs[..found];
      found := found - 1;
    }
  }

  /** Folds the sorted deals into episode objects, updating the open ones in place. */
  method NormalizeEpisodes(deals: seq<Deal>) returns (episodes: seq<Episode>)
    ensures Distinct(episodes) && forall i :: 0 <= i < |episodes| ==> fresh(episodes[i])
    ensures Values(episodes) == Run(StableSort(deals, Earlier))
  {
    hide StableSort, Apply;
    var sorted := StableSort(deals, Earlier);
    episodes := [];
    var k := 0;
    while k < |sorted|
      invariant 0 <= k <= |sorted|
      invariant Distinct(episodes) && forall i :: 0 <= i < |episodes| ==> fresh(episodes[i])
      invariant Values(episodes) == Run(sorted[..k])
    {
      assert sorted[..k + 1][..k] == sorted[..k];
      episodes := ProcessDeal(episodes, sorted[k]);
      k := k + 1;
    }
    assert sorted[..k] == sorted;
  }

  lemma OneChanged(before: seq<EpisodeValue>, after: seq<EpisodeValue>, i: nat)
    requires i < |after| == |before| && forall k :: 0 <= k < |after| && k != i ==> after[k] == before[k]
    ensures after == before[i := after[i]]
  {
  }

  /** The loop body of the fold: one deal against the current episode objects. */
  method ProcessDeal(episodes: seq<Episode>, d: Deal) returns (next: seq<Episode>)
    requires Distinct(episodes)
    modifies episodes
    ensures Distinct(next) && forall k :: 0 <= k < |next| ==> next[k] in episodes || fresh(next[k])
    ensures Values(next) == Apply(old(Values(episodes)), d)
  {
    hide Created, Added, Reduced, Reversed;
    if !d.Identified() {
      return episodes;
    }
    var i := FindOpenEpisode(episodes, d);
    if d.entry == In && i < 0 {
      next := Opened(episodes, d);
    } else if d.entry == In {
      episodes[i].AddEntry(d);
      next := episodes;
      OneChanged(old(Values(episodes)), Values(episodes), i);
    } else if d.entry == Out || d.entry == OutBy {
      if i >= 0 {
        CloseEpisode(episodes, i, d);
      }
      next := episodes;
    } else {
      next := ReverseEpisode(episodes, i, d);
    }
  }

  method CloseEpisode(episodes: seq<Episode>, i: nat, d: Deal)
    requires Distinct(episodes) && i < |episodes|
    modifies episodes
    ensures Values(episodes) == old(Values(episodes))[i := Reduced(old(episodes[i].Value()), d)]
  {
    hide Reduced;
    episodes[i].Close(d);
    OneChanged(old(Values(episodes)), Values(episodes), i);
  }

  method Opened(episodes: seq<Episode>, d: Deal) returns (next: seq<Episode>)
    requires Distinct(episodes)
    ensures Distinct(next) && forall k :: 0 <= k < |next| ==> next[k] in episodes || fresh(next[k])
    ensures Values(next) == Values(episodes) + [Created(d)]
  {
    hide Created;
    var e := new Episode(d);
    next := episodes + [e];
  }

  /** An INOUT deal: closes the open episode it belongs to, if any, and opens one for what is left over. */
  method ReverseEpisode(episodes: seq<Episode>, i: int, d: Deal) returns (next: seq<Episode>)
    requires Distinct(episodes) && d.Identified() && d.entry == InOut
    requires i == FindOpen(Values(episodes), d)
    modifies episodes
    ensures Distinct(next) && forall k :: 0 <= k < |next| ==> next[k] in episodes || fresh(next[k])
    ensures Values(next) == Apply(old(Values(episodes)), d)
  {
    hide Created, Reversed;
    next := episodes;
    var residual := d.volume;
    if i >= 0 {
      residual := Max(0.0, d.volume - episodes[i].currentVolume);
      episodes[i].CloseForReversal(d);
      OneChanged(old(Values(episodes)), Values(episodes), i);
    }
    if residual > VOLUME_EPSILON {
      next := Opened(episodes, d.(volume := residual, profit := 0.0, commission := 0.0, swap := 0.0, fee := 0.0));
    } else {
      assert Values(next) + [] == Values(next);
    }
  }
}
