/** What an episode says about the deals it is made of: each field is a summary of them. */
module EpisodeDeals {
  import opened Common
  import opened Ordering
  import opened Episodes

  /** The name the deal's product goes by: its currencies where both are known. */
  function Product(d: Deal): string {
    if d.base == "" || d.quote == "" then d.symbol else d.base + d.quote
  }

  predicate Meets(e: EpisodeValue, d: Deal) {
    e.open && e.positionId == d.positionId && e.canonicalSymbol == Product(d)
  }

  /** Episode `k` is the newest open one of the deal's position and symbol. */
  ghost predicate Receives(eps: seq<EpisodeValue>, d: Deal, k: nat) {
    && d.positionId != "" && d.symbol != ""
    && k < |eps| && Meets(eps[k], d) && forall j :: k < j < |eps| ==> !Meets(eps[j], d)
  }

  /** What an episode keeps of the deal that opened it. */
  predicate StartedBy(e: EpisodeValue, d: Deal) {
    && e.firstEntryMsc == d.timeMsc && e.offsetMinutes == d.offsetMinutes && e.side == d.side && e.openingPrice == d.price
    && e.openingDealTicket == d.ticket && e.openingOrderTicket == d.orderTicket
  }

  /** The deal belongs to another order than the one that opened the episode, or to none. */
  predicate IsFurtherOrder(opening: string, d: Deal) {
    d.orderTicket == "" || d.orderTicket != opening
  }

  /** What is noted of an additional entry: its time, tickets and price, the average before and after it, and whether it was
      made at a price worse than the average. */
  predicate IsNoteOf(x: ExtraEntry, d: Deal, side: Side, before: real, after: real) {
    && x.timeMsc == d.timeMsc && x.orderTicket == d.orderTicket && x.dealTicket == d.ticket && x.price == d.price
    && x.previousWeightedPrice == before && x.newWeightedPrice == after
    && (x.adverse <==> if side == Buy then d.price < before else before < d.price)
  }

  /** The deal opens episode `k`. */
  predicate Opens(eps: seq<EpisodeValue>, d: Deal, k: nat) {
    k == |eps| < |Apply(eps, d)|
  }

  /** The numbers of the deals an episode is made of: the one that opened it, and those it received. */
  ghost function Own(deals: seq<Deal>, k: nat): (own: seq<nat>)
    ensures forall i :: 0 <= i < |own| ==> own[i] < |deals|
  {
    if deals == [] then []
    else
      var n := |deals| - 1;
      var before := Run(deals[..n]);
      Own(deals[..n], k) + if Opens(before, deals[n], k) || Receives(before, deals[n], k) then [n] else []
  }

  // ---- One deal ----

  lemma ReceivesIff(eps: seq<EpisodeValue>, d: Deal, k: nat)
    ensures Receives(eps, d, k) <==> d.Identified() && FindOpen(eps, d) == k
  {
    var i := FindOpen(eps, d);
    assert forall e: EpisodeValue :: Meets(e, d) <==> e.Serves(d);
  }

  /** Nothing but the episode that receives the deal changes, and a deal opens at most one. */
  lemma OthersStay(eps: seq<EpisodeValue>, d: Deal, k: nat)
    requires k < |eps| && !Receives(eps, d, k)
    ensures k < |Apply(eps, d)| && Apply(eps, d)[k] == eps[k]
  {
    ReceivesIff(eps, d, k);
    hide Added, Reduced, Reversed, Residual, FindOpen;
  }

  lemma OpeningIs(eps: seq<EpisodeValue>, d: Deal, k: nat)
    requires Opens(eps, d, k)
    ensures
      var e := Apply(eps, d)[k];
      && (d.entry == In || d.entry == InOut) && e.open && e.finalCloseMsc == 0
      && e.positionId == d.positionId && e.canonicalSymbol == Product(d) && StartedBy(e, d)
      && e.currentVolume == e.initialVolume && e.additionalEntries == []
      && e.netProfit == (if d.entry == In then d.profit + d.commission + d.swap + d.fee else 0.0)
      && e.sltpEvidenceComplete == d.sltpTimelineComplete && e.maxSltpDistancePips == ObservedPips(0.0, d)
  {
    PipsIgnoreMoney(0.0, d, d.volume);
    if d.entry == InOut {
      var i := FindOpen(eps, d);
      PipsIgnoreMoney(0.0, d, if i >= 0 then Max(0.0, d.volume - eps[i].currentVolume) else d.volume);
    }
    hide ObservedPips, FindOpen;
  }

  lemma PipsIgnoreMoney(seen: real, d: Deal, volume: real)
    ensures ObservedPips(seen, d.(volume := volume)) == ObservedPips(seen, d)
    ensures ObservedPips(seen, d.(volume := volume).(profit := 0.0, commission := 0.0, swap := 0.0, fee := 0.0)) == ObservedPips(seen, d)
  {
  }

  /** What is left of the episode's volume after the deal. */
  function Left(e: EpisodeValue, d: Deal): real {
    if d.entry == In then e.currentVolume + d.volume else e.currentVolume - d.volume
  }

  /** A received deal: an entry adds its volume, anything else takes it off; the episode closes at an entry never, at a
      reversal always, and otherwise when nothing but dust is left. */
  lemma ReceivingIs(eps: seq<EpisodeValue>, d: Deal, k: nat)
    requires Receives(eps, d, k) && eps[k].currentVolume >= 0.0
    ensures k < |Apply(eps, d)|
    ensures
      var (e, t) := (eps[k], Apply(eps, d)[k]);
      && (t.open <==> d.entry == In || (d.entry != InOut && Left(e, d) > 0.00000001))
      && t.currentVolume == (if t.open then Left(e, d) else 0.0)
      && t.finalCloseMsc == (if t.open then e.finalCloseMsc else d.timeMsc)
      && t.netProfit == e.netProfit + d.profit + d.commission + d.swap + d.fee
      && (t.sltpEvidenceComplete <==> e.sltpEvidenceComplete && d.sltpTimelineComplete)
      && t.maxSltpDistancePips == ObservedPips(e.maxSltpDistancePips, d)
      && t.positionId == e.positionId && t.canonicalSymbol == e.canonicalSymbol && t.initialVolume == e.initialVolume
      && (forall first :: StartedBy(e, first) ==> StartedBy(t, first))
      && (if d.entry == In && IsFurtherOrder(e.openingOrderTicket, d)
          then |t.additionalEntries| == |e.additionalEntries| + 1 && t.additionalEntries[..|e.additionalEntries|] == e.additionalEntries
               && IsNoteOf(t.additionalEntries[|e.additionalEntries|], d, e.side, e.weightedPrice, t.weightedPrice)
          else t.additionalEntries == e.additionalEntries)
  {
    ReceivesIff(eps, d, k);
    PipsIgnoreMoney(eps[k].maxSltpDistancePips, d, Min(eps[k].currentVolume, d.volume));
    hide ObservedPips, FindOpen, Weighted, Noted;
  }

  // ---- Whole runs ----

  /** What the deals of an episode add up to after its first one. */
  function NetVolume(deals: seq<Deal>, own: seq<nat>): real
    requires forall i :: 0 <= i < |own| ==> own[i] < |deals|
  {
    if |own| <= 1 then 0.0
    else
      var d := deals[own[|own| - 1]];
      NetVolume(deals, own[..|own| - 1]) + if d.entry == In then d.volume else -d.volume
  }

  /** The profit of the deals of an episode; a reversal's own profit went to the episode it closed. */
  function Profit(deals: seq<Deal>, own: seq<nat>): real
    requires forall i :: 0 <= i < |own| ==> own[i] < |deals|
  {
    if own == [] then 0.0
    else
      var d := deals[own[|own| - 1]];
      Profit(deals, own[..|own| - 1])
      + if |own| == 1 && d.entry == InOut then 0.0 else d.profit + d.commission + d.swap + d.fee
  }

  /** The widest stop or target seen in reliable deals, in pips. */
  function Widest(deals: seq<Deal>, own: seq<nat>): real
    requires forall i :: 0 <= i < |own| ==> own[i] < |deals|
  {
    if own == [] then 0.0 else ObservedPips(Widest(deals, own[..|own| - 1]), deals[own[|own| - 1]])
  }

  /** The entries after the first deal that belong to other orders. */
  function Further(deals: seq<Deal>, own: seq<nat>): (further: seq<nat>)
    requires forall i :: 0 <= i < |own| ==> own[i] < |deals|
    ensures forall i :: 0 <= i < |further| ==> further[i] < |deals|
  {
    if |own| <= 1 then []
    else
      var n := own[|own| - 1];
      Further(deals, own[..|own| - 1])
      + if deals[n].entry == In && IsFurtherOrder(deals[own[0]].orderTicket, deals[n]) then [n] else []
  }

  /** The note tells of this deal. */
  predicate Tells(x: ExtraEntry, d: Deal, side: Side) {
    IsNoteOf(x, d, side, x.previousWeightedPrice, x.newWeightedPrice)
  }

  ghost predicate NotesAre(e: EpisodeValue, deals: seq<Deal>, further: seq<nat>)
    requires forall i :: 0 <= i < |further| ==> further[i] < |deals|
  {
    |e.additionalEntries| == |further|
    && forall i :: 0 <= i < |further| ==> Tells(e.additionalEntries[i], deals[further[i]], e.side)
  }

  /** The fields of an episode in terms of its own deals. */
  ghost predicate Sums(e: EpisodeValue, deals: seq<Deal>, own: seq<nat>)
    requires forall i :: 0 <= i < |own| ==> own[i] < |deals|
  {
    && own != []
    && (var last := deals[own[|own| - 1]];
        var left := e.initialVolume + NetVolume(deals, own);
        && (e.open <==> |own| == 1 || last.entry == In || (last.entry != InOut && left > 0.00000001))
        && e.currentVolume == (if e.open then left else 0.0)
        && e.finalCloseMsc == (if e.open then 0 else last.timeMsc))
    && e.netProfit == Profit(deals, own)
    && (e.sltpEvidenceComplete <==> forall i :: 0 <= i < |own| ==> deals[own[i]].sltpTimelineComplete)
    && e.maxSltpDistancePips == Widest(deals, own)
    && StartedBy(e, deals[own[0]]) && NotesAre(e, deals, Further(deals, own))
    && (forall i :: 0 <= i < |own| ==> deals[own[i]].positionId == e.positionId && Product(deals[own[i]]) == e.canonicalSymbol)
  }

  lemma {:induction false} SumsOfPrefix(e: EpisodeValue, deals: seq<Deal>, own: seq<nat>)
    requires deals != [] && forall i :: 0 <= i < |own| ==> own[i] < |deals| - 1
    ensures
      var before := deals[..|deals| - 1];
      && NetVolume(before, own) == NetVolume(deals, own) && Profit(before, own) == Profit(deals, own)
      && Widest(before, own) == Widest(deals, own) && Further(before, own) == Further(deals, own)
    decreases |own|
  {
    hide ObservedPips;
    if own != [] { SumsOfPrefix(e, deals, own[..|own| - 1]); }
  }

  lemma SumsLonger(e: EpisodeValue, deals: seq<Deal>, own: seq<nat>)
    requires deals != [] && forall i :: 0 <= i < |own| ==> own[i] < |deals| - 1
    requires Sums(e, deals[..|deals| - 1], own)
    ensures Sums(e, deals, own)
  {
    hide ObservedPips, NetVolume, Profit, Widest, Further, Tells;
    SumsOfPrefix(e, deals, own);
  }

  lemma OpenedSums(eps: seq<EpisodeValue>, deals: seq<Deal>, k: nat)
    requires deals != [] && Opens(eps, deals[|deals| - 1], k)
    ensures Sums(Apply(eps, deals[|deals| - 1])[k], deals, [|deals| - 1])
  {
    hide Apply, ObservedPips;
    var n := |deals| - 1;
    var own: seq<nat> := [n];
    OpeningIs(eps, deals[n], k);
    OneDeal(deals, n);
    hide Widest, Profit, NetVolume, Further;
  }

  lemma OneDeal(deals: seq<Deal>, n: nat)
    requires n < |deals|
    ensures
      var own: seq<nat>, d := [n], deals[n];
      && Widest(deals, own) == ObservedPips(0.0, d) && NetVolume(deals, own) == 0.0 && Further(deals, own) == []
      && Profit(deals, own) == if d.entry == InOut then 0.0 else d.profit + d.commission + d.swap + d.fee
  {
    hide ObservedPips;
    var own: seq<nat> := [n];
    assert own[..|own| - 1] == [] && own[|own| - 1] == n;
    assert Widest(deals, []) == 0.0 && Profit(deals, []) == 0.0;
  }

  lemma ReceivedSums(eps: seq<EpisodeValue>, deals: seq<Deal>, own: seq<nat>, k: nat)
    requires deals != [] && Receives(eps, deals[|deals| - 1], k) && eps[k].currentVolume >= 0.0
    requires (forall i :: 0 <= i < |own| ==> own[i] < |deals|) && Sums(eps[k], deals, own)
    ensures k < |Apply(eps, deals[|deals| - 1])| && Sums(Apply(eps, deals[|deals| - 1])[k], deals, own + [|deals| - 1])
  {
    hide Apply, ObservedPips, Receives;
    var n := |deals| - 1;
    var more := own + [n];
    ReceivingIs(eps, deals[n], k);
    assert more[..|more| - 1] == own && more[|more| - 1] == n;
    ReceivedTotals(deals, own, n);
    ReceivedMeets(eps, deals[n], k);
    hide NetVolume, Profit, Widest, Further, NotesAre, IsNoteOf, IsFurtherOrder, Product;
    var t := Apply(eps, deals[n])[k];
    ReceivedNotes(eps, deals, own, k);
    MoreDeals(deals, own, n, t.positionId, t.canonicalSymbol);
  }

  /** What holds of all deals of an episode holds of one more. */
  lemma MoreDeals(deals: seq<Deal>, own: seq<nat>, n: nat, positionId: string, product: string)
    requires n < |deals| && forall i :: 0 <= i < |own| ==> own[i] < |deals|
    ensures forall i :: 0 <= i < |own + [n]| ==> (own + [n])[i] < |deals|
    ensures (forall i :: 0 <= i < |own + [n]| ==> deals[(own + [n])[i]].sltpTimelineComplete)
       <==> (forall i :: 0 <= i < |own| ==> deals[own[i]].sltpTimelineComplete) && deals[n].sltpTimelineComplete
    ensures (forall i :: 0 <= i < |own + [n]| ==>
               deals[(own + [n])[i]].positionId == positionId && Product(deals[(own + [n])[i]]) == product)
       <==> (forall i :: 0 <= i < |own| ==> deals[own[i]].positionId == positionId && Product(deals[own[i]]) == product)
            && deals[n].positionId == positionId && Product(deals[n]) == product
  {
    hide Product;
    var more := own + [n];
    assert more[|own|] == n && forall i :: 0 <= i < |own| ==> more[i] == own[i];
  }

  lemma ReceivedNotes(eps: seq<EpisodeValue>, deals: seq<Deal>, own: seq<nat>, k: nat)
    requires deals != [] && Receives(eps, deals[|deals| - 1], k) && eps[k].currentVolume >= 0.0 && own != []
    requires (forall i :: 0 <= i < |own| ==> own[i] < |deals|) && StartedBy(eps[k], deals[own[0]])
    requires NotesAre(eps[k], deals, Further(deals, own))
    ensures k < |Apply(eps, deals[|deals| - 1])|
    ensures NotesAre(Apply(eps, deals[|deals| - 1])[k], deals, Further(deals, own + [|deals| - 1]))
  {
    hide Apply, Receives, NotesAre, IsNoteOf, IsFurtherOrder, ObservedPips, Widest, NetVolume, Profit;
    var n := |deals| - 1;
    ReceivedMeets(eps, deals[n], k);
    ReceivingIs(eps, deals[n], k);
    ReceivedTotals(deals, own, n);
    assert StartedBy(Apply(eps, deals[n])[k], deals[own[0]]);
    NotedOn(eps[k], Apply(eps, deals[n])[k], deals, Further(deals, own), n, deals[own[0]].orderTicket);
  }

  lemma NotedOn(e: EpisodeValue, t: EpisodeValue, deals: seq<Deal>, further: seq<nat>, n: nat, opening: string)
    requires n < |deals| && (forall i :: 0 <= i < |further| ==> further[i] < |deals|) && NotesAre(e, deals, further) && t.side == e.side
    requires if deals[n].entry == In && IsFurtherOrder(opening, deals[n])
             then |t.additionalEntries| == |e.additionalEntries| + 1 && t.additionalEntries[..|e.additionalEntries|] == e.additionalEntries
                  && IsNoteOf(t.additionalEntries[|e.additionalEntries|], deals[n], e.side, e.weightedPrice, t.weightedPrice)
             else t.additionalEntries == e.additionalEntries
    ensures NotesAre(t, deals, further + if deals[n].entry == In && IsFurtherOrder(opening, deals[n]) then [n] else [])
  {
    forall i | 0 <= i < |further| ensures Tells(t.additionalEntries[i], deals[further[i]], t.side) {
      assert t.additionalEntries[i] == e.additionalEntries[i];
    }
  }

  lemma ReceivedMeets(eps: seq<EpisodeValue>, d: Deal, k: nat)
    requires Receives(eps, d, k)
    ensures k < |eps| && eps[k].open && eps[k].positionId == d.positionId && eps[k].canonicalSymbol == Product(d)
  {
  }

  lemma ReceivedTotals(deals: seq<Deal>, own: seq<nat>, n: nat)
    requires own != [] && n < |deals| && forall i :: 0 <= i < |own| ==> own[i] < |deals|
    ensures
      var d := deals[n];
      && NetVolume(deals, own + [n]) == NetVolume(deals, own) + (if d.entry == In then d.volume else -d.volume)
      && Profit(deals, own + [n]) == Profit(deals, own) + d.profit + d.commission + d.swap + d.fee
      && Widest(deals, own + [n]) == ObservedPips(Widest(deals, own), d)
      && Further(deals, own + [n])
         == Further(deals, own) + if d.entry == In && IsFurtherOrder(deals[own[0]].orderTicket, d) then [n] else []
  {
    hide ObservedPips;
    assert (own + [n])[..|own + [n]| - 1] == own;
  }

  lemma {:induction false} NotTouchedYet(deals: seq<Deal>, k: nat)
    requires k >= |Run(deals)|
    ensures Own(deals, k) == []
  {
    if deals != [] {
      LengthGrows(Run(deals[..|deals| - 1]), deals[|deals| - 1]);
      NotTouchedYet(deals[..|deals| - 1], k);
    }
  }

  lemma LengthGrows(eps: seq<EpisodeValue>, d: Deal)
    ensures |eps| <= |Apply(eps, d)| <= |eps| + 1
  {
    hide Added, Reduced, Reversed;
  }

  /** Every episode of a run is the sum of its own deals: they have its position and symbol, its volume is what their entries
      and exits leave, its profit is theirs, its evidence is complete when all theirs is, its first deal
      dates and prices it, and it is closed, at the time of its
      last deal, exactly when that deal is a reversal or an exit that leaves nothing but dust. */
  lemma {:induction false} EpisodeSumsItsDeals(deals: seq<Deal>, k: nat)
    requires (forall d :: d in deals ==> d.volume >= 0.0) && k < |Run(deals)|
    ensures Sums(Run(deals)[k], deals, Own(deals, k))
  {
    hide Apply, Sums, Receives;
    var n := |deals| - 1;
    var before := Run(deals[..n]);
    LengthGrows(before, deals[n]);
    if k < |before| {
      EpisodeSumsItsDeals(deals[..n], k);
      SumsLonger(before[k], deals, Own(deals[..n], k));
      VolumesNotNegative(deals[..n]);
      if Receives(before, deals[n], k) {
        ReceivedSums(before, deals, Own(deals[..n], k), k);
      } else {
        OthersStay(before, deals[n], k);
        assert Own(deals, k) == Own(deals[..n], k);
      }
    } else {
      NotTouchedYet(deals[..n], k);
      OpenedSums(before, deals, k);
      assert Own(deals, k) == [n];
    }
  }

  // ---- The order of the deals ----

  /** The deals of one time and ticket, in their order. */
  function Alike(deals: seq<Deal>, timeMsc: int, ticket: string): seq<Deal> {
    if deals == [] then []
    else (if deals[0].timeMsc == timeMsc && deals[0].ticket == ticket then [deals[0]] else []) + Alike(deals[1..], timeMsc, ticket)
  }

  lemma {:induction false} TiesAreAlike(deals: seq<Deal>, z: Deal)
    ensures Ties(deals, Earlier, z) == Alike(deals, z.timeMsc, z.ticket)
  {
    if deals != [] {
      TiesAreAlike(deals[1..], z);
      LessTotal(deals[0].ticket, z.ticket);
    }
  }

  /** The fold sees all deals, by time, those of one time by ticket, unit by unit, and those alike as they were given. */
  lemma DealsInOrder(deals: seq<Deal>, z: Deal)
    ensures
      var s := StableSort(deals, Earlier);
      && multiset(s) == multiset(deals) && Alike(s, z.timeMsc, z.ticket) == Alike(deals, z.timeMsc, z.ticket)
      && forall i, j :: 0 <= i < j < |s| ==>
           s[i].timeMsc < s[j].timeMsc || (s[i].timeMsc == s[j].timeMsc && !Ascends(UnitsOf(s[j].ticket), UnitsOf(s[i].ticket)))
  {
    hide Less, UnitsOf, Ascends, StableSort;
    var s := StableSort(deals, Earlier);
    EarlierIsPreorder();
    StableSortSorted(deals, Earlier);
    StableSortKeepsTies(deals, Earlier, z);
    TiesAreAlike(deals, z);
    TiesAreAlike(s, z);
    forall i, j | 0 <= i < j < |s|
      ensures s[i].timeMsc < s[j].timeMsc || (s[i].timeMsc == s[j].timeMsc && !Ascends(UnitsOf(s[j].ticket), UnitsOf(s[i].ticket)))
    {
      assert Earlier(s[i], s[j]);
      LessIsByUnits(s[j].ticket, s[i].ticket);
    }
  }

  /** The deal that closed an episode: an exit or reversal of its position and symbol, whose time the episode bears. */
  lemma {:induction false} ClosedByItsDeal(deals: seq<Deal>, k: nat) returns (n: nat)
    requires (forall d :: d in deals ==> d.volume >= 0.0) && k < |Run(deals)| && !Run(deals)[k].open
    ensures n < |deals| && k < |Run(deals[..n])| && Run(deals[..n])[k].open
    ensures k < |Run(deals[..n + 1])| && !Run(deals[..n + 1])[k].open
    ensures deals[n].entry != In && Run(deals)[k].finalCloseMsc == deals[n].timeMsc
    ensures deals[n].positionId == Run(deals)[k].positionId && Product(deals[n]) == Run(deals)[k].canonicalSymbol
  {
    hide Apply, Receives;
    var m := |deals| - 1;
    var before := Run(deals[..m]);
    LengthGrows(before, deals[m]);
    if k == |before| { OpeningIs(before, deals[m], k); }
    assert deals[..m + 1] == deals;
    if k < |before| && before[k].open {
      VolumesNotNegative(deals[..m]);
      ClosingStep(before, deals[m], k);
      n := m;
    } else {
      ClosedStays(before, deals[m], k);
      n := ClosedByItsDeal(deals[..m], k);
      assert deals[..m][..n] == deals[..n] && deals[..m][..n + 1] == deals[..n + 1];
    }
  }

  lemma ClosingStep(eps: seq<EpisodeValue>, d: Deal, k: nat)
    requires k < |eps| && eps[k].open && eps[k].currentVolume >= 0.0
    requires k < |Apply(eps, d)| && !Apply(eps, d)[k].open
    ensures d.entry != In && Apply(eps, d)[k].finalCloseMsc == d.timeMsc
    ensures d.positionId == Apply(eps, d)[k].positionId && Product(d) == Apply(eps, d)[k].canonicalSymbol
  {
    hide Apply;
    if Receives(eps, d, k) { ReceivingIs(eps, d, k); } else { OthersStay(eps, d, k); }
  }

  lemma ClosedStays(eps: seq<EpisodeValue>, d: Deal, k: nat)
    requires k < |eps| && !eps[k].open
    ensures k < |Apply(eps, d)| && Apply(eps, d)[k] == eps[k]
  {
    OthersStay(eps, d, k);
  }
}
