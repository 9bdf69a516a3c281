/** The alerts page: the records whose Ship OK is below 80 percent of a positive target,
    one card per such record, or an "All Clear" banner when there is none. */
module Alerts {
  import opened Wrappers
  import opened Seqs
  import opened Schema
  import opened Metrics

  /** The underperformer test; the target is checked first, so no division by zero. */
  predicate IsUnderperformer(r: Record) {
    r.target > 0.0 && r.newDepositShipOk / r.target < 0.8
  }

  function UnderperformerPred(): Record -> bool {
    (r: Record) => IsUnderperformer(r)
  }

  /** The flagged records, in the order the list was received. */
  function Underperformers(records: seq<Record>): (flagged: seq<Record>)
    ensures forall r :: r in flagged <==> r in records && IsUnderperformer(r)
    ensures IsSubsequence(flagged, records)
  {
    FilterIsSubsequence(records, UnderperformerPred());
    Filter(records, UnderperformerPred())
  }

  /** Flagged means a positive target and a progress percentage below 80. */
  lemma FlaggedIffBelow80(r: Record)
    ensures IsUnderperformer(r) <==> r.target > 0.0 && Percent(r.newDepositShipOk, r.target) < 80.0
  {
    if r.target > 0.0 {
      RatioBelowIsPercentBelow(r.newDepositShipOk, r.target);
    }
  }

  /** A record with no positive target is never flagged, whatever it shipped. */
  lemma ZeroTargetNeverFlagged(records: seq<Record>, r: Record)
    requires r.target <= 0.0
    ensures r !in Underperformers(records)
  {
  }

  /** The progress figure a card shows: `(shipOk / target) * 100`, only for a positive target. */
  function CardProgress(r: Record): real
    requires r.target > 0.0
  {
    r.newDepositShipOk / r.target * 100.0
  }

  /** One card of the list: the team, its progress, its target and what it achieved. */
  datatype AlertCard = AlertCard(team: string, progress: real, target: real, achieved: real)

  /** What the page shows once the list has loaded (or `Loading` while it has not). */
  datatype AlertsView = Loading | AllClear | Cards(cards: seq<AlertCard>)

  function CardOf(r: Record): AlertCard
    requires r.target > 0.0
  {
    AlertCard(r.team, CardProgress(r), r.target, r.newDepositShipOk)
  }

  /** The cards for the flagged records, one per record and in the same order. */
  function CardsOf(flagged: seq<Record>): (cards: seq<AlertCard>)
    requires forall r :: r in flagged ==> r.target > 0.0
    ensures |cards| == |flagged|
    ensures forall i :: 0 <= i < |flagged| ==> cards[i] == CardOf(flagged[i])
  {
    if flagged == [] then [] else [CardOf(flagged[0])] + CardsOf(flagged[1..])
  }

  /** A missing list (`records` undefined) counts as empty, as `|| []` makes it. */
  function View(isLoading: bool, records: Option<seq<Record>>): (v: AlertsView)
    ensures isLoading <==> v.Loading?
    ensures !isLoading ==> (v.AllClear? <==> Underperformers(records.GetOr([])) == [])
    ensures v.Cards? ==> v.cards == CardsOf(Underperformers(records.GetOr([])))
  {
    var flagged := Underperformers(records.GetOr([]));
    if isLoading then Loading
    else if flagged == [] then AllClear
    else Cards(CardsOf(flagged))
  }

  /** Every card shows its record's team and a progress below 80 percent, which is the
      record's Ship OK as a percentage of its positive target. */
  lemma CardsBelow80(records: seq<Record>)
    ensures var flagged := Underperformers(records);
      forall i :: 0 <= i < |flagged| ==>
        var c := CardsOf(flagged)[i];
        c.team == flagged[i].team && c.target > 0.0 && c.progress < 80.0 &&
        c.progress == Percent(flagged[i].newDepositShipOk, flagged[i].target)
  {
    var flagged := Underperformers(records);
    assert forall i :: 0 <= i < |flagged| ==> flagged[i] in flagged;
    DisplayedProgressBelow80(records);
  }

  /** Every card's progress is below 80 and is the received Ship OK as a share of the target. */
  lemma DisplayedProgressBelow80(records: seq<Record>)
    ensures forall r :: r in Underperformers(records) ==>
      r.target > 0.0 && CardProgress(r) < 80.0 && CardProgress(r) == Percent(r.newDepositShipOk, r.target)
  {
    forall r | r in Underperformers(records)
      ensures r.target > 0.0 && CardProgress(r) < 80.0 && CardProgress(r) == Percent(r.newDepositShipOk, r.target)
    {
      FlaggedIffBelow80(r);
    }
  }

  /** No records, or no loaded list, is "All Clear". */
  lemma NothingLoadedIsAllClear()
    ensures View(false, None) == AllClear
    ensures View(false, Some([])) == AllClear
  {
  }
}
