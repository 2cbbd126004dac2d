/** Whether the open volume of the episodes follows the deals. */
module Exposure {
  import opened Common
  import opened Episodes

  /** A volume bought counts up, one sold counts down. */
  function Toward(side: Side, volume: real): real {
    if side == Buy then volume else -volume
  }

  /** The open volume of an episode, positive for a long one. */
  function Signed(e: EpisodeValue): real {
    Toward(e.side, e.currentVolume)
  }

  function Net(eps: seq<EpisodeValue>): real {
    if eps == [] then 0.0 else Net(eps[..|eps| - 1]) + Signed(eps[|eps| - 1])
  }

  /** What the deals add up to. */
  function Bought(deals: seq<Deal>): real {
    if deals == [] then 0.0 else Bought(deals[..|deals| - 1]) + Toward(deals[|deals| - 1].side, deals[|deals| - 1].volume)
  }

  lemma {:induction false} UpdateMovesNet(eps: seq<EpisodeValue>, i: nat, e: EpisodeValue)
    requires i < |eps|
    ensures Net(eps[i := e]) == Net(eps) - Signed(eps[i]) + Signed(e)
  {
    var n := |eps| - 1;
    if i == n {
      assert eps[i := e][..n] == eps[..n];
    } else {
      assert eps[i := e][..n] == eps[..n][i := e];
      UpdateMovesNet(eps[..n], i, e);
    }
  }

  lemma AppendMovesNet(eps: seq<EpisodeValue>, e: EpisodeValue)
    ensures Net(eps + [e]) == Net(eps) + Signed(e)
  {
    assert (eps + [e])[..|eps|] == eps;
  }

  /** A deal as a broker books it: entries on the side of the position, exits on the other side for at most the open
      volume, reversals on the other side for at least the open volume. */
  predicate Regular(eps: seq<EpisodeValue>, d: Deal) {
    var i := FindOpen(eps, d);
    && d.Identified() && d.volume >= 0.0
    && match d.entry
       case In => i >= 0 ==> eps[i].side == d.side
       case Out => i >= 0 && eps[i].side != d.side && d.volume <= eps[i].currentVolume
       case OutBy => i >= 0 && eps[i].side != d.side && d.volume <= eps[i].currentVolume
       case InOut => i >= 0 ==> eps[i].side != d.side && d.volume >= eps[i].currentVolume
  }

  predicate Close(a: real, b: real, tolerance: real) {
    -tolerance <= a - b <= tolerance
  }

  lemma EntryMovesNet(eps: seq<EpisodeValue>, d: Deal)
    requires Regular(eps, d) && d.entry == In
    ensures Close(Net(Apply(eps, d)), Net(eps) + Toward(d.side, d.volume), VOLUME_EPSILON)
  {
    var i := FindOpen(eps, d);
    if i >= 0 { UpdateMovesNet(eps, i, Added(eps[i], d)); } else { AppendMovesNet(eps, Created(d)); }
  }

  lemma ExitMovesNet(eps: seq<EpisodeValue>, d: Deal)
    requires Regular(eps, d) && (d.entry == Out || d.entry == OutBy)
    ensures Close(Net(Apply(eps, d)), Net(eps) + Toward(d.side, d.volume), VOLUME_EPSILON)
  {
    var i := FindOpen(eps, d);
    UpdateMovesNet(eps, i, Reduced(eps[i], d));
  }

  lemma ReversedIsEmpty(e: EpisodeValue, d: Deal)
    ensures Signed(Reversed(e, d)) == 0.0
  {
  }

  lemma ResidualMovesNet(eps: seq<EpisodeValue>, d: Deal)
    ensures Net(eps + Residual(eps, d)) == Net(eps) + if d.volume > VOLUME_EPSILON then Toward(d.side, d.volume) else 0.0
  {
    if d.volume > VOLUME_EPSILON {
      AppendMovesNet(eps, Created(d.(profit := 0.0, commission := 0.0, swap := 0.0, fee := 0.0)));
    } else {
      assert eps + [] == eps;
    }
  }

  /** What a reversal of an open position changes: the whole position goes, and the residual is opened. */
  lemma ReversalMovesNet(eps: seq<EpisodeValue>, d: Deal)
    requires d.Identified() && d.entry == InOut && FindOpen(eps, d) >= 0
    ensures
      var e := eps[FindOpen(eps, d)];
      var residual := Max(0.0, d.volume - e.currentVolume);
      Net(Apply(eps, d)) == Net(eps) - Signed(e) + if residual > VOLUME_EPSILON then Toward(d.side, residual) else 0.0
  {
    hide Net, Reversed, Residual, Signed;
    var i := FindOpen(eps, d);
    var closed := eps[i := Reversed(eps[i], d)];
    var rest := d.(volume := Max(0.0, d.volume - eps[i].currentVolume));
    UpdateMovesNet(eps, i, Reversed(eps[i], d));
    ReversedIsEmpty(eps[i], d);
    ResidualMovesNet(closed, rest);
    assert Residual(eps, rest) == Residual(closed, rest) by { SameResidual(eps, closed, rest); }
  }

  lemma SameResidual(a: seq<EpisodeValue>, b: seq<EpisodeValue>, d: Deal)
    ensures Residual(a, d) == Residual(b, d)
  {
  }

  /** A reversal of the other side follows the deal, up to dust, if and only if it is not smaller than the position: a
      smaller one closes the whole position all the same. */
  lemma ReversalFollowsIff(eps: seq<EpisodeValue>, d: Deal)
    requires d.Identified() && d.entry == InOut && FindOpen(eps, d) >= 0
    requires eps[FindOpen(eps, d)].side != d.side && eps[FindOpen(eps, d)].currentVolume >= 0.0
    ensures Close(Net(Apply(eps, d)), Net(eps) + Toward(d.side, d.volume), VOLUME_EPSILON)
       <==> d.volume >= eps[FindOpen(eps, d)].currentVolume - VOLUME_EPSILON
  {
    ReversalMovesNet(eps, d);
  }

  lemma RegularReversalMovesNet(eps: seq<EpisodeValue>, d: Deal)
    requires Regular(eps, d) && d.entry == InOut && forall i :: 0 <= i < |eps| ==> eps[i].currentVolume >= 0.0
    ensures Close(Net(Apply(eps, d)), Net(eps) + Toward(d.side, d.volume), VOLUME_EPSILON)
  {
    var i := FindOpen(eps, d);
    assert i >= 0 ==> eps[i].side != d.side && d.volume >= eps[i].currentVolume - VOLUME_EPSILON;
    hide *;
    if i >= 0 { ReversalFollowsIff(eps, d); } else { OpeningReversalMovesNet(eps, d); }
  }

  lemma OpeningReversalMovesNet(eps: seq<EpisodeValue>, d: Deal)
    requires d.Identified() && d.entry == InOut && FindOpen(eps, d) < 0 && d.volume >= 0.0
    ensures Close(Net(Apply(eps, d)), Net(eps) + Toward(d.side, d.volume), VOLUME_EPSILON)
  {
    hide Net, Residual;
    ResidualMovesNet(eps, d);
  }

  lemma DealMovesNet(eps: seq<EpisodeValue>, d: Deal)
    requires Regular(eps, d)
    requires forall i :: 0 <= i < |eps| ==> eps[i].currentVolume >= 0.0
    ensures Close(Net(Apply(eps, d)), Net(eps) + Toward(d.side, d.volume), VOLUME_EPSILON)
  {
    hide *;
    match d.entry
    case In => EntryMovesNet(eps, d);
    case Out => ExitMovesNet(eps, d);
    case OutBy => ExitMovesNet(eps, d);
    case InOut => RegularReversalMovesNet(eps, d);
  }

  ghost predicate AllRegular(deals: seq<Deal>) {
    forall k :: 0 <= k < |deals| ==> Regular(Run(deals[..k]), deals[k])
  }

  lemma RegularPrefix(deals: seq<Deal>)
    requires AllRegular(deals) && deals != []
    ensures AllRegular(deals[..|deals| - 1])
    ensures Regular(Run(deals[..|deals| - 1]), deals[|deals| - 1])
    ensures forall d :: d in deals ==> d.volume >= 0.0
  {
    hide Run, FindOpen;
    var before := deals[..|deals| - 1];
    forall k | 0 <= k < |before| ensures Regular(Run(before[..k]), before[k]) {
      assert before[..k] == deals[..k];
      assert Regular(Run(deals[..k]), deals[k]);
    }
    forall d | d in deals ensures d.volume >= 0.0 {
      var k :| 0 <= k < |deals| && deals[k] == d;
      assert Regular(Run(deals[..k]), deals[k]);
    }
  }

  /** After any stream of regular deals the net open volume is the signed sum of all deals, up to one dust volume a deal. */
  lemma {:induction false} NetVolumeFollowsDeals(deals: seq<Deal>)
    requires AllRegular(deals)
    ensures Close(Net(Run(deals)), Bought(deals), |deals| as real * VOLUME_EPSILON)
  {
    hide Net, Apply, Toward, Regular, AllRegular;
    if deals == [] {
      NothingOpen();
    } else {
      var n := |deals| - 1;
      var before := deals[..n];
      RegularPrefix(deals);
      NetVolumeFollowsDeals(before);
      VolumesNotNegative(before);
      DealMovesNet(Run(before), deals[n]);
      assert |deals| as real * VOLUME_EPSILON == |before| as real * VOLUME_EPSILON + VOLUME_EPSILON;
    }
  }

  lemma NothingOpen()
    ensures Net(Run([])) == 0.0 && Bought([]) == 0.0
  {
  }
}
