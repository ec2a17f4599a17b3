/** Models/HotelImageDetail.cs: an image and the link-only comparer used to deduplicate images. */
module HotelImageDetails {
  import opened Wrappers

  datatype HotelImageDetail = HotelImageDetail(link: Option<string>, description: Option<string>)

  /** What `GetHashCode` throws when `Link` is null. */
  datatype Exception = NullReferenceException

  /**
   * `HotelImageDetailComparer.Equals` (HotelImageDetail.cs:23-36); `None` is a null
   * reference. Two details are the same image exactly when their links are equal.
   */
  function ComparerEquals(x: Option<HotelImageDetail>, y: Option<HotelImageDetail>): (r: bool)
    ensures x.None? && y.None? ==> r
    ensures x.None? != y.None? ==> !r
    ensures x.Some? && y.Some? ==> (r <==> x.value.link == y.value.link)
  {
    if x.None? && y.None? then true
    else if x.None? || y.None? then false
    else x.value.link == y.value.link
  }

  /**
   * `HotelImageDetailComparer.GetHashCode` (HotelImageDetail.cs:39-42):
   * `obj.Link.GetHashCode()`. The string hash is seeded per process, so it is a
   * parameter; a null link throws.
   */
  function ComparerGetHashCode(obj: HotelImageDetail, stringHash: string -> int): (r: Result<int, Exception>)
    ensures r.Failure? <==> obj.link.None?
    ensures r.Success? ==> r.value == stringHash(obj.link.value)
  {
    match obj.link
    case None => Failure(NullReferenceException)
    case Some(link) => Success(stringHash(link))
  }

  /** Images with the same link but different captions are the same image. */
  lemma EqualsIgnoresDescription(link: Option<string>, d1: Option<string>, d2: Option<string>)
    ensures ComparerEquals(Some(HotelImageDetail(link, d1)), Some(HotelImageDetail(link, d2)))
  {
  }

  /** `ComparerEquals` is an equivalence relation. */
  lemma EqualsIsEquivalence(x: Option<HotelImageDetail>, y: Option<HotelImageDetail>, z: Option<HotelImageDetail>)
    ensures ComparerEquals(x, x)
    ensures ComparerEquals(x, y) == ComparerEquals(y, x)
    ensures ComparerEquals(x, y) && ComparerEquals(y, z) ==> ComparerEquals(x, z)
  {
  }

  /** Equal details that can be hashed have equal hash codes, for every string hash. */
  lemma HashAgreesWithEquals(x: HotelImageDetail, y: HotelImageDetail, stringHash: string -> int)
    requires ComparerEquals(Some(x), Some(y))
    ensures ComparerGetHashCode(x, stringHash) == ComparerGetHashCode(y, stringHash)
  {
  }
}
