// The volume slider's stepped icon: an integer slider value is mapped to one
// of four icon levels by the descending thresholds 67, 34 and 1.
module Volume {

  /** The icon level shown for a slider value (the icon file itself is not modelled). */
  function VolumeLevel(value: int): (level: int)
    ensures 0 <= level <= 3
    ensures level == 3 <==> 67 <= value
    ensures level == 2 <==> 34 <= value < 67
    ensures level == 1 <==> 1 <= value < 34
    ensures level == 0 <==> value < 1
  {
    if value >= 67 then 3
    else if value >= 34 then 2
    else if value >= 1 then 1
    else 0
  }

  /** The thresholds, in ascending order, at which the icon steps up. */
  const Thresholds: seq<int> := [1, 34, 67]

  /** How many of the thresholds the value reaches: an independent reading of the level. */
  function ThresholdsReached(value: int, thresholds: seq<int>): (n: nat)
    ensures n <= |thresholds|
  {
    if thresholds == [] then 0
    else (if value >= thresholds[0] then 1 else 0) + ThresholdsReached(value, thresholds[1..])
  }

  /** A larger value reaches at least as many thresholds. */
  lemma {:induction false} ThresholdsReachedMonotone(value: int, other: int, thresholds: seq<int>)
    requires value <= other
    ensures ThresholdsReached(value, thresholds) <= ThresholdsReached(other, thresholds)
  {
    if thresholds != [] {
      ThresholdsReachedMonotone(value, other, thresholds[1..]);
    }
  }

  /** The level is the number of thresholds the slider value has reached. */
  lemma VolumeLevelCountsThresholds(value: int)
    ensures VolumeLevel(value) == ThresholdsReached(value, Thresholds)
  {
    var top := if value >= 67 then 1 else 0;
    assert [67][1..] == [];
    assert ThresholdsReached(value, [67]) == top;
    assert [34, 67][1..] == [67];
    assert ThresholdsReached(value, [34, 67]) == (if value >= 34 then 1 else 0) + top;
    assert Thresholds[1..] == [34, 67];
  }

  /** Moving the slider up never lowers the icon level. */
  lemma VolumeLevelMonotone(value: int, other: int)
    requires value <= other
    ensures VolumeLevel(value) <= VolumeLevel(other)
  {
    VolumeLevelCountsThresholds(value);
    VolumeLevelCountsThresholds(other);
    ThresholdsReachedMonotone(value, other, Thresholds);
  }

  /** Sample slider positions: 0, 33, 50 and 90. */
  lemma VolumeSamples()
    ensures VolumeLevel(0) == 0 && VolumeLevel(33) == 1 && VolumeLevel(50) == 2 && VolumeLevel(90) == 3
  {
  }
}
