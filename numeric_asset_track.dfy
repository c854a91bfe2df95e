/**
 * The numeric asset track (TheOracle.GameCore.Assets.NumericAssetTrack): a
 * counter with bounds whose setter ignores values outside [Min, Max], and the
 * ±1 steps the asset reaction handlers take under a bounds guard.
 */
module NumericTracks {
  import opened Text

  /** C#'s `int`. */
  newtype Int32 = x: int | -0x8000_0000 <= x < 0x8000_0000

  /** Unchecked 32-bit arithmetic: the mathematical result reduced into the `int` range. */
  function Wrap(x: int): (r: Int32)
    ensures MinInt32 <= x <= MaxInt32 ==> r as int == x
    ensures x == MaxInt32 + 1 ==> r as int == MinInt32
    ensures x == MinInt32 - 1 ==> r as int == MaxInt32
  {
    ((x - MinInt32) % 0x1_0000_0000 + MinInt32) as Int32
  }

  /** The value the `ActiveNumber` setter leaves behind when asked to store `value`. */
  function Assigned(current: Int32, value: Int32, min: Int32, max: Int32): (r: Int32)
    ensures r == value || r == current
    ensures min <= value <= max ==> r == value
    ensures r != current ==> min <= r <= max
    ensures min <= current <= max ==> min <= r <= max
  {
    if value >= min && value <= max then value else current
  }

  /**
   * `NumericTrackIncrease`: when `ActiveNumber + 1 <= Max` (32-bit addition),
   * assign `ActiveNumber + 1`.
   */
  function StepUp(current: Int32, min: Int32, max: Int32): Int32 {
    var next := Wrap(current as int + 1);
    if next <= max then Assigned(current, next, min, max) else current
  }

  /**
   * `NumericTrackDecrease`: when `ActiveNumber - 1 >= Min` (32-bit subtraction),
   * assign `ActiveNumber - 1`.
   */
  function StepDown(current: Int32, min: Int32, max: Int32): Int32 {
    var next := Wrap(current as int - 1);
    if next >= min then Assigned(current, next, min, max) else current
  }

  /**
   * Below `int.MaxValue`, a step up moves the value by exactly one when the new
   * value lies in [Min, Max], and leaves it alone otherwise (the guard rejects a
   * value above Max, the setter one below Min).
   */
  lemma StepUpExact(current: Int32, min: Int32, max: Int32)
    requires current as int < MaxInt32
    ensures min as int <= current as int + 1 <= max as int ==> StepUp(current, min, max) as int == current as int + 1
    ensures !(min as int <= current as int + 1 <= max as int) ==> StepUp(current, min, max) == current
  {
    assert Wrap(current as int + 1) as int == current as int + 1;
  }

  /** Above `int.MinValue`, the mirror image for a step down. */
  lemma StepDownExact(current: Int32, min: Int32, max: Int32)
    requires current as int > MinInt32
    ensures min as int <= current as int - 1 <= max as int ==> StepDown(current, min, max) as int == current as int - 1
    ensures !(min as int <= current as int - 1 <= max as int) ==> StepDown(current, min, max) == current
  {
    assert Wrap(current as int - 1) as int == current as int - 1;
  }

  /** Steps keep a value that was within the bounds within them. */
  lemma StepsKeepBounds(current: Int32, min: Int32, max: Int32)
    requires min <= current <= max
    ensures min <= StepUp(current, min, max) <= max
    ensures min <= StepDown(current, min, max) <= max
  {
  }

  /**
   * At `int.MaxValue` the unchecked `ActiveNumber + 1` wraps to `int.MinValue`,
   * which passes the `<= Max` guard: a track spanning the whole `int` range
   * jumps from its top to its bottom.
   */
  lemma StepUpWrapsAtMaxValue()
    ensures StepUp(MaxInt32 as Int32, MinInt32 as Int32, MaxInt32 as Int32) as int == MinInt32
  {
    assert Wrap(MaxInt32 + 1) as int == MinInt32;
  }

  /** `NumericAssetTrack`. `activeNumber` is the private backing field of `ActiveNumber`. */
  class NumericAssetTrack {
    var id: Int32
    var name: string
    var min: Int32
    var max: Int32
    var activeNumber: Int32

    /** A new track: every field at its default, so the active number reads 0 whatever the bounds. */
    constructor ()
      ensures id == 0 && name == "" && min == 0 && max == 0 && activeNumber == 0
    {
      id, name, min, max, activeNumber := 0, "", 0, 0, 0;
    }

    /** The `ActiveNumber` setter: an in-range value is stored, any other is ignored. */
    method SetActiveNumber(value: Int32)
      modifies this
      ensures activeNumber == Assigned(old(activeNumber), value, min, max)
      ensures id == old(id) && name == old(name) && min == old(min) && max == old(max)
    {
      if value >= min && value <= max {
        activeNumber := value;
      }
    }

    /** `DeepCopy`: a new track with the same field values. */
    method DeepCopy() returns (track: NumericAssetTrack)
      ensures fresh(track)
      ensures track.id == id && track.name == name && track.min == min && track.max == max
      ensures track.activeNumber == activeNumber
    {
      track := new NumericAssetTrack();
      track.id, track.name, track.min, track.max, track.activeNumber := id, name, min, max, activeNumber;
    }

    /**
     * The reaction handler's step up: the guarded `ActiveNumber++`. `changed`
     * is whether the guard held (the handler then re-renders the card).
     */
    method Increase() returns (changed: bool)
      modifies this
      ensures changed <==> Wrap(old(activeNumber) as int + 1) <= max
      ensures activeNumber == StepUp(old(activeNumber), min, max)
      ensures id == old(id) && name == old(name) && min == old(min) && max == old(max)
    {
      var next := Wrap(activeNumber as int + 1);
      changed := next <= max;
      if changed {
        SetActiveNumber(next);
      }
    }

    /** The reaction handler's step down: the guarded `ActiveNumber--`. */
    method Decrease() returns (changed: bool)
      modifies this
      ensures changed <==> Wrap(old(activeNumber) as int - 1) >= min
      ensures activeNumber == StepDown(old(activeNumber), min, max)
      ensures id == old(id) && name == old(name) && min == old(min) && max == old(max)
    {
      var next := Wrap(activeNumber as int - 1);
      changed := next >= min;
      if changed {
        SetActiveNumber(next);
      }
    }
  }

  /**
   * A copy is independent of its original: assigning to the copy leaves the
   * original's active number as it was.
   */
  method AssignToCopy(original: NumericAssetTrack, value: Int32) returns (copy: NumericAssetTrack)
    ensures fresh(copy) && unchanged(original)
    ensures copy.activeNumber == Assigned(original.activeNumber, value, original.min, original.max)
  {
    copy := original.DeepCopy();
    copy.SetActiveNumber(value);
  }
}
