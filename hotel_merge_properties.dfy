/**
 * What the merge guarantees across a whole fold, and where the code as written
 * departs from the intended merge rules listed in README.md ("Where the code departs
 * from the intended merge rules").
 */
module HotelMergeProperties {
  import opened Wrappers
  import opened StringExtensions
  import opened NumericExtensions
  import opened HotelImageDetails
  import opened Enumerable
  import opened Models
  import opened Dtos
  import opened HotelMerge

  // ---------------------------------------------------------------------------
  // What an update keeps
  // ---------------------------------------------------------------------------

  /** A non-empty text is never replaced. */
  ghost predicate TextKept(before: Option<string>, after: Option<string>) {
    !IsNullOrEmpty(before) ==> after == before
  }

  /** A present, non-zero coordinate is never replaced. */
  ghost predicate CoordinateKept(before: Option<Coordinate>, after: Option<Coordinate>) {
    !IsNullOrZero(before) ==> after == before
  }

  /** Every token of `before` is still in `after`. */
  ghost predicate TokensKept(before: seq<string>, after: seq<string>) {
    forall i :: 0 <= i < |before| ==> before[i] in after
  }

  /** Every image link of `before` is still in `after`. */
  ghost predicate LinksKept(before: seq<HotelImageDetail>, after: seq<HotelImageDetail>) {
    KeySet(before, LinkOf) <= KeySet(after, LinkOf)
  }

  /**
   * What an update preserves: the key; name, address and city once non-empty; a
   * non-empty country stays non-empty (PaperFlies may replace it); a present
   * description stays present (PaperFlies may replace it); non-zero coordinates;
   * every token and every image link.
   */
  ghost predicate Grows(h: Hotel, u: Hotel) {
    && KeyOf(u) == KeyOf(h)
    && TextKept(h.name, u.name)
    && TextKept(h.location.address, u.location.address)
    && TextKept(h.location.city, u.location.city)
    && (!IsNullOrEmpty(h.location.country) ==> !IsNullOrEmpty(u.location.country))
    && (h.description.Some? ==> u.description.Some?)
    && CoordinateKept(h.location.latitude, u.location.latitude)
    && CoordinateKept(h.location.longitude, u.location.longitude)
    && TokensKept(h.amenities.general, u.amenities.general)
    && TokensKept(h.amenities.room, u.amenities.room)
    && TokensKept(h.bookingConditions, u.bookingConditions)
    && LinksKept(h.images.rooms, u.images.rooms)
    && LinksKept(h.images.site, u.images.site)
    && LinksKept(h.images.amenities, u.images.amenities)
  }

  lemma UnionKeepsTokens(existing: seq<string>, incoming: seq<string>)
    ensures TokensKept(existing, Union(existing, incoming))
  {
    UnionSpec(existing, incoming);
  }

  lemma GrowsReflexive(h: Hotel)
    ensures Grows(h, h)
  {
  }

  lemma GrowsTransitive(a: Hotel, b: Hotel, c: Hotel)
    requires Grows(a, b) && Grows(b, c)
    ensures Grows(a, c)
  {
  }

  /** Every update that does not throw preserves what `Grows` names. */
  lemma UpdateGrows(h: Hotel, rec: SupplierRecord)
    requires UpdateRecord(h, rec).Success?
    ensures Grows(h, UpdateRecord(h, rec).value)
  {
    var u := UpdateRecord(h, rec).value;
    match rec
    case FromPaperFlies(p) =>
      UnionKeepsTokens(h.amenities.general, SelectOrEmpty(p.GeneralAmenities(), BeautifyAndToLower));
      UnionKeepsTokens(h.amenities.room, SelectOrEmpty(p.RoomAmenities(), BeautifyAndToLower));
      UnionKeepsTokens(h.bookingConditions, SelectOrEmpty(p.bookingConditions, Beautify));
    case FromPatagonia(p) =>
      UnionKeepsTokens(h.amenities.room, SelectOrEmpty(p.amenities, BeautifyAndToLower));
    case FromAcme(a) =>
      UnionKeepsTokens(h.amenities.general, SelectOrEmpty(a.facilities, BeautifyAndToLower));
  }

  /**
   * Across a whole fold, every hotel already in the table is still there and has
   * grown in the sense of `Grows`.
   */
  lemma {:induction false} FoldGrows(c: Catalog, recs: seq<SupplierRecord>)
    requires Fold(c, recs).Success?
    ensures forall k :: k in c.hotels ==> k in Fold(c, recs).value.hotels && Grows(c.hotels[k], Fold(c, recs).value.hotels[k])
    decreases |recs|
  {
    if recs != [] {
      var next := Merge(c, recs[0]).value;
      var last := Fold(c, recs).value;
      FoldGrows(next, recs[1..]);
      forall k | k in c.hotels
        ensures k in last.hotels && Grows(c.hotels[k], last.hotels[k])
      {
        if k == RecordKey(recs[0]) {
          UpdateGrows(c.hotels[k], recs[0]);
        } else {
          GrowsReflexive(c.hotels[k]);
        }
        GrowsTransitive(c.hotels[k], next.hotels[k], last.hotels[k]);
      }
    }
  }

  // ---------------------------------------------------------------------------
  // Image unions
  // ---------------------------------------------------------------------------

  /**
   * The first image seen with a given link survives the union, so its description
   * is the one kept; a later image with the same link and another caption is dropped.
   */
  lemma UnionImagesKeepsFirst(existing: seq<HotelImageDetail>, incoming: seq<HotelImageDetail>, j: nat)
    requires UnionImages(existing, incoming).Success?
    requires j < |existing + incoming|
    requires forall m :: 0 <= m < j ==> (existing + incoming)[m].link != (existing + incoming)[j].link
    ensures (existing + incoming)[j] in UnionImages(existing, incoming).value
  {
    var all := existing + incoming;
    assert forall m :: 0 <= m < j ==> LinkOf(all[m]) != LinkOf(all[j]);
    DistinctByKeepsFirst(all, LinkOf, {}, j);
  }

  /** Two images with one link and different captions merge into the first. */
  lemma SameLinkKeepsFirstCaption(link: string, first: Option<string>, second: Option<string>)
    ensures UnionImages([HotelImageDetail(Some(link), first)], [HotelImageDetail(Some(link), second)])
         == Success([HotelImageDetail(Some(link), first)])
  {
    var a := HotelImageDetail(Some(link), first);
    var b := HotelImageDetail(Some(link), second);
    var all := [a] + [b];
    assert all[0] == a && all[1] == b && all[1..] == [b] && [b][1..] == [];
    assert AllLinked(all);
    assert DistinctBy([b], LinkOf, {Some(link)}) == [];
    assert DistinctBy(all, LinkOf, {}) == [a];
  }
}
