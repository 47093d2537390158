/** The alarm node: the state the node keeps between scans and the callback
    that runs on every scan. */
module LidarAlarmNode {
  import opened LidarGeometry
  import opened SectorEvaluation

  /** The fields of one incoming laser scan that the callback reads. */
  datatype LaserScan = LaserScan(
    angleMin: real, angleMax: real, angleIncrement: real,
    rangeMin: real, rangeMax: real,
    ranges: seq<real>)

  /** The ranges found at the monitored indices of `ranges`. */
  function ReadAt(ranges: seq<real>, g: SectorIndices): (r: SectorRanges)
    requires g.InBounds(|ranges|)
    ensures forall s :: r.RangeOf(s) == ranges[IndexOf(g, s)]
  {
    SectorRanges(
      ranges[g.front],
      ranges[g.left90], ranges[g.left45], ranges[g.left30],
      ranges[g.right90], ranges[g.right45], ranges[g.right30])
  }

  /** The index at which the node reads sector `s`. */
  function IndexOf(g: SectorIndices, s: Sector): int {
    match s
    case Front => g.front
    case Left90 => g.left90
    case Left45 => g.left45
    case Left30 => g.left30
    case Right90 => g.right90
    case Right45 => g.right45
    case Right30 => g.right30
  }

  /** The node's state. The globals `ping_front_`, `index_size` and the six
      side indices form the field `indices`; the seven `ping_dist_*` globals
      form the field `readings`; the others are fields of their own. */
  class LidarAlarm {
    /** The ranges read from the last scan. */
    var readings: SectorRanges
    /** The cached indices; `indices.front` doubles as the "not set up yet"
        sentinel while it is negative. */
    var indices: SectorIndices
    var angleMin: real
    var angleMax: real
    var angleIncrement: real
    var rangeMin: real
    var rangeMax: real
    var laserAlarm: bool

    /** The indices the callback reads `scan` at: freshly computed from its
        geometry while the node is not set up, the cached ones after. */
    function IndicesFor(scan: LaserScan): SectorIndices
      reads this
      requires indices.front < 0 ==> scan.angleIncrement != 0.0
    {
      if indices.front < 0 then ComputeIndices(scan.angleMin, scan.angleMax, scan.angleIncrement)
      else indices
    }
    /** What the callback needs of a scan: a non-zero increment if it sets
        up, and every index it reads inside the scan. */
    predicate Ready(scan: LaserScan)
      reads this
    {
      (indices.front < 0 ==> scan.angleIncrement != 0.0) &&
      IndicesFor(scan).InBounds(|scan.ranges|)
    }
    /** The initial values of the globals. */
    constructor ()
      ensures indices == SectorIndices(-1, 0, 0, 0, 0, 0, 0, 0)
      ensures readings == SectorRanges(3.0, 3.0, 3.0, 3.0, 3.0, 3.0, 3.0)
      ensures angleMin == 0.0 && angleMax == 0.0 && angleIncrement == 0.0
      ensures rangeMin == 0.0 && rangeMax == 0.0
      ensures !laserAlarm
    {
      readings := SectorRanges(3.0, 3.0, 3.0, 3.0, 3.0, 3.0, 3.0);
      indices := SectorIndices(-1, 0, 0, 0, 0, 0, 0, 0);
      angleMin, angleMax, angleIncrement := 0.0, 0.0, 0.0;
      rangeMin, rangeMax := 0.0, 0.0;
      laserAlarm := false;
    }

    /** One scan: sets up the indices if the sentinel says so, reads the
        seven ranges, runs the priority chain, and returns the two published
        values (the alarm and the front distance) together with the sector
        whose warning the taken branch logs. Every branch of the chain
        assigns the alarm, so its new value depends on this scan alone. */
    method LaserCallback(scan: LaserScan) returns (alarm: bool, frontDistance: real, warned: Option<Sector>)
      requires Ready(scan)
      modifies this
      // set-up runs exactly when the sentinel is negative on entry
      ensures old(indices.front) < 0 ==>
        indices == ComputeIndices(scan.angleMin, scan.angleMax, scan.angleIncrement) &&
        angleMin == scan.angleMin && angleMax == scan.angleMax &&
        angleIncrement == scan.angleIncrement &&
        rangeMin == scan.rangeMin && rangeMax == scan.rangeMax
      ensures old(indices.front) >= 0 ==>
        indices == old(indices) &&
        angleMin == old(angleMin) && angleMax == old(angleMax) &&
        angleIncrement == old(angleIncrement) &&
        rangeMin == old(rangeMin) && rangeMax == old(rangeMax)
      // after any scan the node is set up, so later scans skip set-up
      ensures 0 <= indices.front
      ensures readings == ReadAt(scan.ranges, indices)
      ensures warned == Triggered(readings)
      ensures laserAlarm == Alarm(readings) && alarm == laserAlarm
      ensures frontDistance == readings.front == scan.ranges[indices.front]
    {
      if indices.front < 0 {
        angleMin := scan.angleMin;
        angleMax := scan.angleMax;
        angleIncrement := scan.angleIncrement;
        rangeMin := scan.rangeMin;
        rangeMax := scan.rangeMax;
        indices := ComputeIndices(angleMin, angleMax, angleIncrement);
      }

      var g := indices;
      readings := ReadAt(scan.ranges, g);

      var r := readings;
      if r.front < MinSafeDistanceFront {
        warned := Some(Front);
        laserAlarm := true;
      } else if r.left90 < MinSafeDistanceLeft {
        warned := Some(Left90);
        laserAlarm := true;
      } else if r.left45 < MinSafeDistanceLeft45 {
        warned := Some(Left45);
        laserAlarm := true;
      } else if r.left30 < MinSafeDistanceLeft30 {
        warned := Some(Left30);
        laserAlarm := true;
      } else if r.right90 < MinSafeDistanceRight {
        warned := Some(Right90);
        laserAlarm := true;
      } else if r.right45 < MinSafeDistanceRight45 {
        warned := Some(Right45);
        laserAlarm := true;
      } else if r.right30 < MinSafeDistanceRight30 {
        warned := Some(Right30);
        laserAlarm := true;
      } else {
        warned := None;
        laserAlarm := false;
      }
      ChainSelectsFirstViolation(r);
      alarm := laserAlarm;
      frontDistance := readings.front;
    }
  }

  /** A client: the first scan sets the node up, and a second scan with a
      different geometry is still read at the indices of the first. */
  method SetUpOnce() {
    var node := new LidarAlarm();
    var first := LaserScan(-1.5708, 1.5708, 0.0174533, 0.1, 30.0,
                           seq(181, i => if i == 90 then 0.5 else 3.0));
    LeftMirrorCanBeOneShort();
    var alarm, distance, warned := node.LaserCallback(first);
    assert distance == 0.5;
    FrontTakesPriority(node.readings);
    assert alarm && warned == Some(Front);

    var cached := node.indices;
    var second := LaserScan(-3.14159, 3.14159, 0.00872665, 0.1, 30.0, seq(720, i => 3.0));
    alarm, distance, warned := node.LaserCallback(second);
    assert node.indices == cached && node.angleIncrement == 0.0174533;
    NoAlarmIffAllClear(node.readings);
    assert !alarm && distance == 3.0 && warned == None;
  }
}
