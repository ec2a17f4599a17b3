/**
 * Concrete folds and single updates that show how the code as written behaves where
 * it departs from the intended merge rules listed in README.md ("Where the code
 * departs from the intended merge rules").
 */
module MergeScenarios {
  import opened Wrappers
  import opened StringExtensions
  import opened NumericExtensions
  import opened HotelImageDetails
  import opened Enumerable
  import opened Models
  import opened Dtos
  import opened HotelMerge
  import opened HotelMergeProperties

  // ---------------------------------------------------------------------------
  // Coordinates
  // ---------------------------------------------------------------------------

  /**
   * Patagonia fills a missing longitude from its LATITUDE whenever its own longitude
   * is present and non-zero.
   */
  lemma PatagoniaLongitudeTakesLatitude(h: Hotel, p: PatagoniaHotel)
    requires UpdateFromPatagonia(h, p).Success?
    requires IsNullOrZero(h.location.longitude) && !IsNullOrZero(p.longitude)
    ensures UpdateFromPatagonia(h, p).value.location.longitude == p.latitude
  {
  }

  /**
   * Acme never fills a missing latitude with a real one: the inverted guard only lets
   * a null-or-zero incoming latitude through.
   */
  lemma AcmeNeverFillsLatitude(h: Hotel, a: AcmeHotel)
    requires IsNullOrZero(h.location.latitude)
    ensures IsNullOrZero(UpdateFromAcme(h, a).location.latitude)
  {
  }

  /** Acme replaces a null latitude with a zero one, so zero does fill a null. */
  lemma AcmeZeroReplacesNull(h: Hotel, a: AcmeHotel)
    requires h.location.latitude.None? && a.latitude == Some(0)
    ensures UpdateFromAcme(h, a).location.latitude == Some(0)
  {
  }

  /**
   * Acme gives a missing longitude its latitude when its own longitude is missing,
   * which can be a real coordinate.
   */
  lemma AcmeLongitudeTakesLatitude(h: Hotel, a: AcmeHotel)
    requires IsNullOrZero(h.location.longitude) && IsNullOrZero(a.longitude)
    ensures UpdateFromAcme(h, a).location.longitude == a.latitude
  {
  }

  // ---------------------------------------------------------------------------
  // Text and tokens
  // ---------------------------------------------------------------------------

  /**
   * PaperFlies replaces the description whenever its details are non-empty, so
   * details made of white space turn any description into the empty string.
   */
  lemma PaperFliesBlanksDescription(h: Hotel, p: PaperFliesHotel)
    requires UpdateFromPaperFlies(h, p).Success?
    requires p.details == Some(" ")
    ensures UpdateFromPaperFlies(h, p).value.description == Some("")
  {
    BlankNormalisesToEmpty(" ");
  }

  /** A PaperFlies record with two general amenities and nothing else. */
  function TwoAmenities(first: string, second: string): PaperFliesHotel {
    PaperFliesHotel("h", 1, None, None, None, Some(PaperFliesAmenities(Some([first, second]), None)), None, None)
  }

  /** A PaperFlies record with nothing but its key. */
  const BareRecord := PaperFliesHotel("h", 1, None, None, None, None, None, None)

  /**
   * A new record keeps tokens that become equal once trimmed (`w + t` and `t + w`);
   * the next union of that list drops the repeat, so a list shrinks when a later
   * supplier folds in.
   */
  lemma NewRecordTokensMayShrink(w: string, t: string)
    requires AllWhiteSpace(w) && NoOuterWhiteSpace(t)
    ensures NewFromPaperFlies(TwoAmenities(w + t, t + w)).amenities.general == [t, t]
    ensures UpdateFromPaperFlies(NewFromPaperFlies(TwoAmenities(w + t, t + w)), BareRecord).value.amenities.general == [t]
  {
    var h := NewFromPaperFlies(TwoAmenities(w + t, t + w));
    TrimmedPair(w, t);
    assert h.images == EmptyImages;
    UnionCollapsesRepeat(t);
  }

  /** Both `w + t` and `t + w` trim to `t`. */
  lemma TrimmedPair(w: string, t: string)
    requires AllWhiteSpace(w) && NoOuterWhiteSpace(t)
    ensures SelectOrEmpty(Some([w + t, t + w]), Beautify) == [t, t]
  {
    TrimLeadingWhite(w, t);
    TrimTrailingWhite(w, t);
  }

  lemma TrimLeadingWhite(w: string, t: string)
    requires AllWhiteSpace(w) && NoOuterWhiteSpace(t)
    ensures Beautify(w + t) == t
  {
    BeautifyUnique(w, t, []);
    assert w + t + [] == w + t;
  }

  lemma TrimTrailingWhite(w: string, t: string)
    requires AllWhiteSpace(w) && NoOuterWhiteSpace(t)
    ensures Beautify(t + w) == t
  {
    BeautifyUnique([], t, w);
    assert [] + t + w == t + w;
  }

  lemma UnionCollapsesRepeat(t: string)
    ensures Union([t, t], []) == [t]
  {
    assert [t, t] + [] == [t, t] && [t, t][1..] == [t] && [t][1..] == [];
    assert Union([t, t], []) == DistinctBy([t, t], Identity, {});
    assert DistinctBy([t], Identity, {t}) == [];
    assert DistinctBy([t, t], Identity, {}) == [t] + DistinctBy([t], Identity, {Identity(t)});
  }

  // ---------------------------------------------------------------------------
  // Whole merges
  // ---------------------------------------------------------------------------

  /**
   * Fold order decides fill-if-empty races: when PaperFlies, Patagonia and Acme all
   * describe the same hotel and the PaperFlies name is not blank, the merge yields one
   * hotel carrying the trimmed PaperFlies name, whatever the other two say.
   */
  lemma FirstSupplierNameWins(p: PaperFliesHotel, q: PatagoniaHotel, a: AcmeHotel, n: string)
    requires (q.id, q.destination) == (p.hotelId, p.destinationId) == (a.id, a.destinationId)
    requires p.hotelName == Some(n) && Beautify(n) != []
    requires MergeAll([p], [q], [a]).Success?
    ensures var hotels := MergeAll([p], [q], [a]).value; |hotels| == 1 && hotels[0].name == Some(Beautify(n))
  {
    MergeAllAfterFirst(p, q, a);
    OneKeyFold((p.hotelId, p.destinationId), NewFromPaperFlies(p), q, a);
  }

  /** The merge of one record from each supplier, after the PaperFlies record has made the table. */
  lemma MergeAllAfterFirst(p: PaperFliesHotel, q: PatagoniaHotel, a: AcmeHotel)
    requires MergeAll([p], [q], [a]).Success?
    ensures var k := (p.hotelId, p.destinationId);
      var after := Fold(Catalog(map[k := NewFromPaperFlies(p)], [k]), [FromPatagonia(q)] + [FromAcme(a)]);
      && after.Success? && Valid(after.value)
      && MergeAll([p], [q], [a]).value == Values(after.value)
  {
    FoldAfterFirst(p, q, a);
    assert Valid(EmptyCatalog);
  }

  /** Folding one record from each supplier starts from the PaperFlies record alone. */
  lemma FoldAfterFirst(p: PaperFliesHotel, q: PatagoniaHotel, a: AcmeHotel)
    ensures var k := (p.hotelId, p.destinationId);
      Fold(EmptyCatalog, Records([p], [q], [a]))
        == Fold(Catalog(map[k := NewFromPaperFlies(p)], [k]), [FromPatagonia(q)] + [FromAcme(a)])
  {
    OneOfEach(p, q, a);
    MergeFirst(FromPaperFlies(p));
    FoldCons(EmptyCatalog, FromPaperFlies(p), [FromPatagonia(q)] + [FromAcme(a)], Catalog(map[(p.hotelId, p.destinationId) := NewFromPaperFlies(p)], [(p.hotelId, p.destinationId)]));
  }

  /**
   * A Patagonia and an Acme record under the one key of a one-hotel table leave its
   * key list alone and keep the hotel's name when it has one.
   */
  lemma OneKeyFold(k: Key, h1: Hotel, q: PatagoniaHotel, a: AcmeHotel)
    requires (q.id, q.destination) == k == (a.id, a.destinationId)
    requires Fold(Catalog(map[k := h1], [k]), [FromPatagonia(q)] + [FromAcme(a)]).Success?
    ensures var c := Fold(Catalog(map[k := h1], [k]), [FromPatagonia(q)] + [FromAcme(a)]).value;
      && c.keys == [k] && k in c.hotels && TextKept(h1.name, c.hotels[k].name)
  {
    var c1 := Catalog(map[k := h1], [k]);
    var rest := [FromPatagonia(q)] + [FromAcme(a)];
    FoldGrows(c1, rest);
    OneKeyFoldKeys(c1, rest, k);
  }

  lemma OneKeyFoldKeys(c1: Catalog, rest: seq<SupplierRecord>, k: Key)
    requires c1.keys == [k] && c1.hotels.Keys == {k}
    requires forall i :: 0 <= i < |rest| ==> RecordKey(rest[i]) == k
    requires Fold(c1, rest).Success?
    ensures Fold(c1, rest).value.keys == [k]
  {
    FoldKeys(c1, rest);
    DistinctBySeenAll(RecordKeys(rest), {k});
  }

  /** Nothing is kept from a list whose every key was already seen. */
  lemma DistinctBySeenAll(ks: seq<Key>, seen: set<Key>)
    requires forall i :: 0 <= i < |ks| ==> ks[i] in seen
    ensures DistinctBy(ks, Identity, seen) == []
  {
    DistinctByKeys(ks, Identity, seen);
  }

  /** Records without images never reach the throwing image union: the merge succeeds. */
  lemma ImagelessMergeSucceeds(p: PaperFliesHotel, q: PatagoniaHotel, a: AcmeHotel)
    requires (q.id, q.destination) == (p.hotelId, p.destinationId) == (a.id, a.destinationId)
    requires p.images.None? && q.images.None?
    ensures MergeAll([p], [q], [a]).Success?
  {
    var h1 := NewFromPaperFlies(p);
    assert h1.images == EmptyImages;
    PatagoniaWithoutImagesSucceeds(h1, q);
    var h2 := UpdateFromPatagonia(h1, q).value;
    OneHotelFromThree(p, q, a, h1, h2, UpdateFromAcme(h2, a));
  }

  /** One record from each supplier under one key: the merge yields the one hotel. */
  lemma OneHotelFromThree(p: PaperFliesHotel, q: PatagoniaHotel, a: AcmeHotel, h1: Hotel, h2: Hotel, h3: Hotel)
    requires (q.id, q.destination) == (p.hotelId, p.destinationId) == (a.id, a.destinationId)
    requires NewFromPaperFlies(p) == h1 && UpdateFromPatagonia(h1, q) == Success(h2) && UpdateFromAcme(h2, a) == h3
    ensures MergeAll([p], [q], [a]) == Success([h3])
  {
    var k := (p.hotelId, p.destinationId);
    ThreeRecordFold(FromPaperFlies(p), FromPatagonia(q), FromAcme(a), h1, h2, h3);
    OneOfEach(p, q, a);
    assert Values(Catalog(map[k := h3], [k])) == [h3];
  }

  /** The fold order of one record from each supplier. */
  lemma OneOfEach(p: PaperFliesHotel, q: PatagoniaHotel, a: AcmeHotel)
    ensures Records([p], [q], [a]) == [FromPaperFlies(p)] + ([FromPatagonia(q)] + [FromAcme(a)])
  {
    assert PaperFliesRecords([p]) == [FromPaperFlies(p)];
    assert PatagoniaRecords([q]) == [FromPatagonia(q)];
    assert AcmeRecords([a]) == [FromAcme(a)];
  }

  /** A Patagonia update with no images into a hotel with none cannot throw. */
  lemma PatagoniaWithoutImagesSucceeds(h: Hotel, q: PatagoniaHotel)
    requires h.images == EmptyImages && q.images.None?
    ensures UpdateFromPatagonia(h, q).Success?
  {
    assert SelectOrEmpty(q.RoomImages(), PatagoniaImageDetail) == [];
    assert SelectOrEmpty(q.AmenityImages(), PatagoniaImageDetail) == [];
    assert h.images.rooms + [] == [] && h.images.amenities + [] == [];
  }

  /**
   * Three records with one key fold into a table holding the new record of the
   * first, updated by the second and then by the third.
   */
  lemma ThreeRecordFold(r1: SupplierRecord, r2: SupplierRecord, r3: SupplierRecord, h1: Hotel, h2: Hotel, h3: Hotel)
    requires RecordKey(r1) == RecordKey(r2) == RecordKey(r3)
    requires NewRecord(r1) == h1 && UpdateRecord(h1, r2) == Success(h2) && UpdateRecord(h2, r3) == Success(h3)
    ensures Fold(EmptyCatalog, [r1] + ([r2] + [r3])) == Success(Catalog(map[RecordKey(r1) := h3], [RecordKey(r1)]))
  {
    var k := RecordKey(r1);
    var c1 := Catalog(map[k := h1], [k]);
    var c2 := Catalog(map[k := h2], [k]);
    var c3 := Catalog(map[k := h3], [k]);
    MergeFirst(r1);
    MergeAgain(k, h1, r2, h2);
    MergeAgain(k, h2, r3, h3);
    FoldLast(c2, r3, c3);
    FoldCons(c1, r2, [r3], c2);
    FoldCons(EmptyCatalog, r1, [r2] + [r3], c1);
  }

  /** A successful merge of the only record ends the fold. */
  lemma FoldLast(c: Catalog, r: SupplierRecord, next: Catalog)
    requires Merge(c, r) == Success(next)
    ensures Fold(c, [r]) == Success(next)
  {
    assert [r][1..] == [];
  }

  /** A successful merge of the first record hands the rest to the next table. */
  lemma FoldCons(c: Catalog, r: SupplierRecord, rest: seq<SupplierRecord>, next: Catalog)
    requires Merge(c, r) == Success(next)
    ensures Fold(c, [r] + rest) == Fold(next, rest)
  {
    assert ([r] + rest)[0] == r && ([r] + rest)[1..] == rest;
  }

  lemma MergeFirst(r: SupplierRecord)
    ensures Merge(EmptyCatalog, r) == Success(Catalog(map[RecordKey(r) := NewRecord(r)], [RecordKey(r)]))
  {
    assert [] + [RecordKey(r)] == [RecordKey(r)];
  }

  lemma MergeAgain(k: Key, h: Hotel, r: SupplierRecord, next: Hotel)
    requires RecordKey(r) == k && UpdateRecord(h, r) == Success(next)
    ensures Merge(Catalog(map[k := h], [k]), r) == Success(Catalog(map[k := next], [k]))
  {
    assert map[k := h][k := next] == map[k := next];
  }

  // The three records of one hotel, `("abc", 1)`; 1234 stands for the latitude 12.34.
  const RoomPhoto := PatagoniaImage(Some("http://x/1.jpg"), Some("Room"))
  const BeachPaperFlies := PaperFliesHotel("abc", 1, Some("Beach Hotel"), None, None, Some(PaperFliesAmenities(Some(["WiFi"]), None)), None, None)
  const BeachPatagonia := PatagoniaHotel("abc", 1, None, Some(1234), Some(0), None, None, None, Some(PatagoniaImages(Some([RoomPhoto]), None)))
  const BeachAcme := AcmeHotel("abc", 1, None, None, None, None, None, Some("USA"), None, None, Some(["Pool"]))

  const BeachFromPaperFlies := Hotel("abc", 1, Some("Beach Hotel"), EmptyLocation, None, HotelAmenities(["WiFi"], []), EmptyImages, [])
  const BeachWithPatagonia := BeachFromPaperFlies.(
    location := EmptyLocation.(latitude := Some(1234)),
    images := HotelImages([PatagoniaImageDetail(RoomPhoto)], [], []))
  const BeachMerged := BeachWithPatagonia.(
    location := BeachWithPatagonia.location.(country := Some("USA")),
    amenities := HotelAmenities(["WiFi", "pool"], []))

  /**
   * The three-supplier walk-through: name from PaperFlies, latitude from Patagonia,
   * the zero longitude rejected, country from Acme, the one room image. The general
   * amenities are "WiFi" and "pool": the PaperFlies token that created the record was
   * trimmed but not lowercased.
   */
  lemma BeachHotelMerge()
    ensures MergeAll([BeachPaperFlies], [BeachPatagonia], [BeachAcme]) == Success([BeachMerged])
    ensures BeachMerged.location.longitude.None? && "wifi" !in BeachMerged.amenities.general
  {
    BeachFirstRecord();
    BeachPatagoniaUpdate();
    BeachAcmeUpdate();
    OneHotelFromThree(BeachPaperFlies, BeachPatagonia, BeachAcme, BeachFromPaperFlies, BeachWithPatagonia, BeachMerged);
  }

  lemma BeachFirstRecord()
    ensures NewFromPaperFlies(BeachPaperFlies) == BeachFromPaperFlies
  {
    BeautifyKeepsTrimmed("Beach Hotel");
    BeautifyKeepsTrimmed("WiFi");
    assert SelectOrEmpty(Some(["WiFi"]), Beautify) == ["WiFi"];
  }

  lemma BeachPatagoniaUpdate()
    ensures UpdateFromPatagonia(BeachFromPaperFlies, BeachPatagonia) == Success(BeachWithPatagonia)
  {
    var photo := PatagoniaImageDetail(RoomPhoto);
    assert SelectOrEmpty(Some([RoomPhoto]), PatagoniaImageDetail) == [photo];
    assert [] + [photo] == [photo];
    assert UnionImages([], [photo]) == Success([photo]) by {
      assert DistinctBy([photo], LinkOf, {}) == [photo];
    }
    assert UnionImages([], []) == Success([]);
    assert Union<string>([], []) == [];
  }

  lemma BeachAcmeUpdate()
    ensures UpdateFromAcme(BeachWithPatagonia, BeachAcme) == BeachMerged
  {
    PoolLowered();
    assert SelectOrEmpty(Some(["Pool"]), BeautifyAndToLower) == ["pool"];
    assert ["WiFi"] + ["pool"] == ["WiFi", "pool"];
    assert ["WiFi", "pool"][1..] == ["pool"] && ["pool"][1..] == [];
    assert Union(["WiFi"], ["pool"]) == ["WiFi", "pool"];
  }

  lemma PoolLowered()
    ensures BeautifyAndToLower("Pool") == "pool"
  {
    BeautifyKeepsTrimmed("Pool");
    var r := BeautifyAndToLower("Pool");
    assert |r| == 4;
    assert r[0] == 'p' && r[1] == 'o' && r[2] == 'o' && r[3] == 'l';
  }
}
