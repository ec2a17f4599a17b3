/** Extensions/NumericExtensions.cs. */
module NumericExtensions {
  import opened Wrappers

  /**
   * Stand-in for `double?` coordinates. The merge only ever asks whether a
   * coordinate is null or zero, so an integer is enough to tell the cases apart.
   */
  type Coordinate = int

  /** `IsNullOrZero` (NumericExtensions.cs:13-16): `value is null or 0`. */
  function IsNullOrZero(value: Option<Coordinate>): (r: bool)
    ensures !r <==> value.Some? && value.value != 0
  {
    value.None? || value.value == 0
  }
}
