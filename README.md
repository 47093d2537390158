# Lidar proximity alarm: a Dafny model

The modelled system is a ROS node, `revised_lidar_alarm`, run by a mobile robot. On every laser scan it decides whether an obstacle is too close and publishes two values: a boolean alarm and the range straight ahead.

The node watches seven bearings:

- straight ahead;
- 90, 45 and 30 degrees to the left;
- the same three angles to the right.

On the first usable scan it turns the scan's angular metadata (`angle_min`, `angle_max`, `angle_increment`) into one array index per bearing and caches them. A negative front index is the sentinel for "not set up yet". On every scan it reads the range at each cached index and runs an if/else-if chain in a fixed order: front, left 90, left 45, left 30, right 90, right 45, right 30. Each sector is compared with `<` against its own minimum safe distance. The first sector below its threshold raises the alarm; if none is, the alarm is cleared.

The model has three modules:

- `LidarGeometry` (`geometry.dfy`). Truncation toward zero (`Trunc`, the C++ `(int)` cast), the three index formulas and the cached record `SectorIndices`. It also holds lemmas about these formulas:
  - index ordering;
  - what an index counts;
  - left/right mirroring for a symmetric scan;
  - the front index as midpoint;
  - two concrete scans, one with ends at the 1.5708 bearings and one just inside them, on which mirroring is off by one at some bearings.
- `SectorEvaluation` (`evaluation.dfy`). The sectors, the seven thresholds, the priority order as data (`PriorityOrder`) and the "first violated sector" specification (`FirstViolated`, `Triggered`, `Alarm`). Its lemmas cover:
  - the branch taken is the first violation;
  - the alarm is clear exactly when every range is at least its threshold;
  - the front wins.
- `LidarAlarmNode` (`node.dfy`). The class `LidarAlarm` holds the node's global variables. Its method `LaserCallback` is the callback. It runs the sentinel-guarded set-up, the seven range reads and the threshold chain imperatively. It is proved against the functions above.

Facts about the code that the model keeps:

- Indices are truncated toward zero, not rounded.
- The indices are computed once and never again, even when a later scan has a different geometry.
- No index is bounds-checked, and an out-of-range index is not reported. The model states the in-bounds requirement as a precondition of `LaserCallback`, because an out-of-range index is undefined behaviour in the code.
- The threshold for the front sector is the constant 1.0 (line 9). The comment on that line says 0.5 m; the model follows the constant.

## Model

| member | source | states |
|---|---|---|
| `LidarGeometry.Trunc` | revised_lidar_alarm/src/revised_lidar_alarm.cpp:56-63 | the integer conversion truncates toward zero: for `x >= 0` the result is the largest integer not above `x`; for `x < 0` it is the smallest integer not below `x` |
| `LidarGeometry.TruncMonotone` | revised_lidar_alarm/src/revised_lidar_alarm.cpp:56-63 | truncation is monotone, which is what carries the order of the bearings over to the order of the indices |
| `LidarGeometry.TruncMirror` | revised_lidar_alarm/src/revised_lidar_alarm.cpp:61-63 | for an integer `n` and `x >= 0`, truncating `n - x` gives `n - Trunc(x)` or one less (this is the left-hand formula against the mirrored right-hand one) |
| `LidarGeometry.IndexFromMinCountsIncrements` | revised_lidar_alarm/src/revised_lidar_alarm.cpp:56-60 | with a positive increment, the front or right-hand index of a bearing at or after `angle_min` is the number of whole increments between `angle_min` and the bearing; before `angle_min` it is zero or negative and brackets the distance from above |
| `LidarGeometry.RightIndicesOrdered` | revised_lidar_alarm/src/revised_lidar_alarm.cpp:56-60 | with a positive increment, `ping_right <= ping_right_45 <= ping_right_30 <= ping_front_` for every geometry |
| `LidarGeometry.LeftIndicesOrdered` | revised_lidar_alarm/src/revised_lidar_alarm.cpp:61-63 | with a positive increment, `ping_left_30 <= ping_left_45 <= ping_left` for every geometry |
| `LidarGeometry.MirroredIndex` | revised_lidar_alarm/src/revised_lidar_alarm.cpp:57-63 | for a symmetric scan (`angle_min == -angle_max`, `angle_max >= 0`, positive increment) and any bearing, the index computed back from `angle_max` equals `index_size` minus the index of the opposite bearing from `angle_min`, or one less |
| `LidarGeometry.LeftMirrorsRight` | revised_lidar_alarm/src/revised_lidar_alarm.cpp:57-63 | for every symmetric scan with a positive increment, each of `ping_left`, `ping_left_45`, `ping_left_30` is `index_size` minus its right-hand counterpart, or one less |
| `LidarGeometry.FrontIsMidpoint` | revised_lidar_alarm/src/revised_lidar_alarm.cpp:56-57 | for a symmetric scan, `index_size` is twice `ping_front_` or one more, so the front index is the middle of the scan |
| `LidarGeometry.LeftMirrorCanBeOneShort` | revised_lidar_alarm/src/revised_lidar_alarm.cpp:56-63 | for the scan -1.5708..1.5708 in steps of 0.0174533: `index_size` is 180 and the front index 90; the right indices are 0, 45 and 60; the left ones are 180, 134 and 119, so the "one less" of the mirror lemma occurs |
| `LidarGeometry.HalfPiScanIndices` | revised_lidar_alarm/src/revised_lidar_alarm.cpp:56-63 | for the scan -1.5707963..1.5707963 in steps of 0.0174533, whose ends lie just inside the 1.5708 bearings: `index_size` 179, front 89, right indices 0, 44, 59, left indices 179, 134, 119, so the 90-degree pair mirrors exactly and the 45- and 30-degree pairs are one less |
| `SectorEvaluation.FirstViolatedIsFirst` | revised_lidar_alarm/src/revised_lidar_alarm.cpp:76-106 | the selected sector is violated (range strictly below its threshold) and every sector before it in the order is safe; nothing is selected exactly when every sector in the order is safe |
| `SectorEvaluation.ChainSelectsFirstViolation` | revised_lidar_alarm/src/revised_lidar_alarm.cpp:76-106 | the if/else-if chain over the seven readings and their thresholds selects exactly the first violated sector in the priority order front, L90, L45, L30, R90, R45, R30 |
| `SectorEvaluation.TriggeredIsFirstViolation` | revised_lidar_alarm/src/revised_lidar_alarm.cpp:76-103 | when a branch is taken, its sector is violated and every sector that ranks higher in the priority order is safe |
| `SectorEvaluation.NoAlarmIffAllClear` | revised_lidar_alarm/src/revised_lidar_alarm.cpp:76-106 | the alarm is false exactly when front >= 1.0, left 90 >= 0.6, left 45 >= 0.75, left 30 >= 0.8, right 90 >= 0.6, right 45 >= 0.75 and right 30 >= 0.8; a range equal to its threshold does not trigger |
| `SectorEvaluation.FrontTakesPriority` | revised_lidar_alarm/src/revised_lidar_alarm.cpp:76-79 | a front range below 1.0 selects the front branch whatever the side sectors read |
| `LidarAlarmNode.ReadAt` | revised_lidar_alarm/src/revised_lidar_alarm.cpp:67-73 | the reading of each sector is the scan's range at that sector's index |
| `LidarAlarmNode.LidarAlarm.constructor` | revised_lidar_alarm/src/revised_lidar_alarm.cpp:17-38 | the initial state: every `ping_dist_*` is 3.0, the front index is the sentinel -1, the other indices and `index_size` are 0, the cached angles and ranges are 0.0, the alarm is false |
| `LidarAlarmNode.LidarAlarm.LaserCallback` | revised_lidar_alarm/src/revised_lidar_alarm.cpp:45-113 | see below |

What `LidarAlarmNode.LidarAlarm.LaserCallback` guarantees:

- Set-up runs exactly when the front index is negative on entry. It caches the scan's angles and range bounds, and the indices become `ComputeIndices` of the scan's geometry.
- Otherwise the indices and the cached angles are unchanged.
- Afterwards the front index is non-negative, so set-up never runs again.
- The readings are the ranges at the indices.
- The alarm is `Alarm(readings)`, whatever its previous value.
- The logged sector is the first violated sector.
- The returned front distance is `ranges[ping_front_]` of this scan, whatever the alarm.

## Left out

- ROS plumbing is transport and process start-up, with no logic to model: `ros::init`, the node handle, `advertise`, `subscribe`, `ros::spin`, `main` (lines 115-129), the publisher globals (lines 40-41) and the `publish` calls (lines 107-112). The two published values are returned by `LaserCallback` instead.
- Logging (`ROS_INFO` at line 64, `ROS_WARN` at lines 77-101) is a side effect and its text is not modelled. `LaserCallback` does return, as `warned`, which sector's warning the taken branch logs.
- IEEE `float`/`double` arithmetic and the mix of the two are not modelled. Angles, ranges and thresholds are `real`, and the bearing and threshold literals are taken as exact decimals. Non-finite ranges (NaN, infinity) therefore cannot be expressed.
- The `int` range of the double-to-int conversions at lines 56-63 is not modelled. The indices and `index_size` are unbounded integers, so a quotient outside the 32-bit range, which C++ leaves undefined, is not detected. That includes `index_size`, which is never read as an index.
- The global `ping_test` (line 24) is never read or written after its declaration, so it has no counterpart.
- `range_min_` and `range_max_` (lines 51-52) are cached and never used. The model caches them and does nothing else with them.
- LidarAlarmNode.LidarAlarm.LaserCallback: requires every index it reads to lie inside the scan. The source indexes without a check, which is undefined behaviour for an out-of-range index and is not modelled. It also requires a non-zero `angle_increment` when set-up runs. The source would divide by zero and convert an infinity or NaN to `int`, which C++ leaves undefined.
- LidarAlarmNode.LidarAlarm: the globals `ping_front_`, `index_size` and the six side indices are one record-typed field, `indices`. The seven `ping_dist_*` globals are one field, `readings`. Each set-up or read step assigns one of these records whole, where the source assigns the globals one at a time. A callback runs to completion before another starts, so no reader can tell the difference.
