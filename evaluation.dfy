/** Sector evaluation: the seven monitored sectors, their safety thresholds
    and the priority order in which the alarm node checks them. */
module SectorEvaluation {

  datatype Option<T> = None | Some(value: T)

  /** The monitored sectors: straight ahead and 90, 45 and 30 degrees to
      each side. */
  datatype Sector = Front | Left90 | Left45 | Left30 | Right90 | Right45 | Right30

  /** Minimum safe distances in metres. */
  const MinSafeDistanceFront: real := 1.0
  const MinSafeDistanceLeft: real := 0.6
  const MinSafeDistanceRight: real := 0.6
  const MinSafeDistanceRight45: real := 0.75
  const MinSafeDistanceRight30: real := 0.8
  const MinSafeDistanceLeft45: real := 0.75
  const MinSafeDistanceLeft30: real := 0.8

  function Threshold(s: Sector): real {
    match s
    case Front => MinSafeDistanceFront
    case Left90 => MinSafeDistanceLeft
    case Left45 => MinSafeDistanceLeft45
    case Left30 => MinSafeDistanceLeft30
    case Right90 => MinSafeDistanceRight
    case Right45 => MinSafeDistanceRight45
    case Right30 => MinSafeDistanceRight30
  }

  /** The order of the node's if/else-if chain. */
  const PriorityOrder: seq<Sector> := [Front, Left90, Left45, Left30, Right90, Right45, Right30]

  /** The range read at each sector's index in one scan. */
  datatype SectorRanges = SectorRanges(
    front: real,
    left90: real, left45: real, left30: real,
    right90: real, right45: real, right30: real)
  {
    function RangeOf(s: Sector): real {
      match s
      case Front => front
      case Left90 => left90
      case Left45 => left45
      case Left30 => left30
      case Right90 => right90
      case Right45 => right45
      case Right30 => right30
    }
  }

  /** A sector is violated when its range is strictly below its threshold; a
      range equal to the threshold is safe. */
  predicate Violated(r: SectorRanges, s: Sector) {
    r.RangeOf(s) < Threshold(s)
  }

  /** The first sector of `order[i..]` that is violated, if any. */
  function FirstViolated(order: seq<Sector>, r: SectorRanges, i: nat): Option<Sector>
    requires i <= |order|
    decreases |order| - i
  {
    if i == |order| then None
    else if Violated(r, order[i]) then Some(order[i])
    else FirstViolated(order, r, i + 1)
  }

  /** `FirstViolated` finds a violated sector of `order[i..]` that no
      violated sector precedes, and finds none exactly when all are safe. */
  lemma {:induction false} FirstViolatedIsFirst(order: seq<Sector>, r: SectorRanges, i: nat)
    requires i <= |order|
    decreases |order| - i
    ensures var v := FirstViolated(order, r, i);
      (v.Some? ==> exists k :: i <= k < |order| && order[k] == v.value && Violated(r, order[k]) &&
                               forall j :: i <= j < k ==> !Violated(r, order[j])) &&
      (v.None? <==> forall j :: i <= j < |order| ==> !Violated(r, order[j]))
  {
    if i < |order| && !Violated(r, order[i]) {
      FirstViolatedIsFirst(order, r, i + 1);
    }
  }

  /** The sector whose branch the chain takes: the first violated sector in
      priority order. */
  function Triggered(r: SectorRanges): Option<Sector> {
    FirstViolated(PriorityOrder, r, 0)
  }

  /** The alarm value the chain assigns. */
  predicate Alarm(r: SectorRanges) {
    Triggered(r).Some?
  }

  /** The branch taken is a violated sector, and every sector ahead of it in
      the priority order is safe. */
  lemma TriggeredIsFirstViolation(r: SectorRanges)
    ensures Triggered(r).Some? ==>
      var s := Triggered(r).value;
      Violated(r, s) &&
      forall t :: t in PriorityOrder && Rank(t) < Rank(s) ==> !Violated(r, t)
  {
  }

  /** The position of a sector in the priority order. */
  function Rank(s: Sector): (k: nat)
    ensures k < |PriorityOrder| && PriorityOrder[k] == s
  {
    match s
    case Front => 0
    case Left90 => 1
    case Left45 => 2
    case Left30 => 3
    case Right90 => 4
    case Right45 => 5
    case Right30 => 6
  }

  /** No alarm exactly when every sector's range is at least its threshold. */
  lemma NoAlarmIffAllClear(r: SectorRanges)
    ensures !Alarm(r) <==>
      r.front >= 1.0 &&
      r.left90 >= 0.6 && r.left45 >= 0.75 && r.left30 >= 0.8 &&
      r.right90 >= 0.6 && r.right45 >= 0.75 && r.right30 >= 0.8
  {
  }

  /** Checking the sectors one after another with an if/else-if chain, in
      the order front, left 90, left 45, left 30, right 90, right 45,
      right 30, selects the first violated sector of the priority order. */
  lemma ChainSelectsFirstViolation(r: SectorRanges)
    ensures Triggered(r) ==
      if r.front < MinSafeDistanceFront then Some(Front)
      else if r.left90 < MinSafeDistanceLeft then Some(Left90)
      else if r.left45 < MinSafeDistanceLeft45 then Some(Left45)
      else if r.left30 < MinSafeDistanceLeft30 then Some(Left30)
      else if r.right90 < MinSafeDistanceRight then Some(Right90)
      else if r.right45 < MinSafeDistanceRight45 then Some(Right45)
      else if r.right30 < MinSafeDistanceRight30 then Some(Right30)
      else None
  {
  }

  /** An obstacle ahead takes precedence over every side sector. */
  lemma FrontTakesPriority(r: SectorRanges)
    requires r.front < MinSafeDistanceFront
    ensures Triggered(r) == Some(Front)
  {
  }
}
