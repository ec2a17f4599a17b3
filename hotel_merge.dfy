/**
 * The merge rules of Services/HotelMergerService.cs as pure functions: the field rules
 * each `Map*ToHotel` branch applies, the record a new key creates, the update an
 * existing key receives, and the fold of all supplier records over one keyed table.
 * The imperative loops in `HotelMergerService` are proved against `Fold`.
 */
module HotelMerge {
  import opened Wrappers
  import opened StringExtensions
  import opened NumericExtensions
  import opened HotelImageDetails
  import opened Enumerable
  import opened Models
  import opened Dtos

  /** The dictionary key `(Id, DestinationId)`. */
  type Key = (string, int)

  function KeyOf(h: Hotel): Key {
    (h.id, h.destinationId)
  }

  /** `string.IsNullOrEmpty` */
  predicate IsNullOrEmpty(s: Option<string>) {
    s.None? || s.value == []
  }

  // ---------------------------------------------------------------------------
  // Field rules
  // ---------------------------------------------------------------------------

  /**
   * Fill-if-empty: the incoming text, untrimmed, replaces a null or empty value when
   * it is itself non-empty; a non-empty value is never replaced.
   */
  function FillIfEmpty(existing: Option<string>, incoming: Option<string>): (r: Option<string>)
    ensures !IsNullOrEmpty(existing) ==> r == existing
    ensures IsNullOrEmpty(existing) && !IsNullOrEmpty(incoming) ==> r == incoming
    ensures IsNullOrEmpty(incoming) ==> r == existing
    ensures IsNullOrEmpty(r) <==> IsNullOrEmpty(existing) && IsNullOrEmpty(incoming)
  {
    if IsNullOrEmpty(existing) && !IsNullOrEmpty(incoming) then incoming else existing
  }

  /**
   * The Patagonia coordinate rule: a null-or-zero coordinate takes `replacement` when the
   * incoming coordinate `guard` is present and non-zero. For the longitude the source
   * passes the incoming latitude as `replacement`.
   */
  function FillCoordinate(existing: Option<Coordinate>, guard: Option<Coordinate>, replacement: Option<Coordinate>): (r: Option<Coordinate>)
    ensures !IsNullOrZero(existing) ==> r == existing
    ensures IsNullOrZero(guard) ==> r == existing
    ensures IsNullOrZero(existing) && !IsNullOrZero(guard) ==> r == replacement
  {
    if IsNullOrZero(existing) && !IsNullOrZero(guard) then replacement else existing
  }

  /**
   * The Acme coordinate rule, whose guard lacks the negation: a null-or-zero coordinate
   * takes `replacement` only when the incoming coordinate `guard` is null-or-zero too.
   * The source passes the incoming latitude as `replacement` for both coordinates.
   */
  function AcmeCoordinate(existing: Option<Coordinate>, guard: Option<Coordinate>, replacement: Option<Coordinate>): (r: Option<Coordinate>)
    ensures !IsNullOrZero(existing) ==> r == existing
    ensures !IsNullOrZero(guard) ==> r == existing
    ensures IsNullOrZero(existing) && IsNullOrZero(guard) ==> r == replacement
  {
    if IsNullOrZero(existing) && IsNullOrZero(guard) then replacement else existing
  }

  /** The link of an image, which is all the comparer looks at. */
  function LinkOf(d: HotelImageDetail): Option<string> {
    d.link
  }

  /** Every image has a link, so the comparer can hash each of them. */
  ghost predicate AllLinked(s: seq<HotelImageDetail>) {
    forall i :: 0 <= i < |s| ==> s[i].link.Some?
  }

  /**
   * `existing.Union(incoming, new HotelImageDetailComparer()).ToList()`: the union
   * hashes every element of both lists, so one null link anywhere throws; otherwise
   * it keeps one image per link, the first one seen, and keeps every link of both lists.
   */
  function UnionImages(existing: seq<HotelImageDetail>, incoming: seq<HotelImageDetail>): (r: Result<seq<HotelImageDetail>, Exception>)
    ensures r.Failure? <==> !AllLinked(existing + incoming)
    ensures r.Success? ==> DistinctKeys(r.value, LinkOf)
    ensures r.Success? ==> KeySet(r.value, LinkOf) == KeySet(existing, LinkOf) + KeySet(incoming, LinkOf)
    ensures r.Success? && DistinctKeys(existing, LinkOf) ==>
      r.value == existing + DistinctBy(incoming, LinkOf, KeySet(existing, LinkOf))
  {
    var all := existing + incoming;
    if exists i :: 0 <= i < |all| && all[i].link.None? then
      Failure(NullReferenceException)
    else
      UnionWithSpec(existing, incoming, LinkOf);
      Success(UnionWith(existing, incoming, LinkOf))
  }

  /** The union's key is the comparer's equality: two images share a link exactly when it calls them equal. */
  lemma LinkOfIsComparerEquals(x: HotelImageDetail, y: HotelImageDetail)
    ensures LinkOf(x) == LinkOf(y) <==> ComparerEquals(Some(x), Some(y))
  {
  }

  /** The image union throws exactly when the comparer's hash throws on one of the images. */
  lemma UnionImagesFailsWhenHashThrows(existing: seq<HotelImageDetail>, incoming: seq<HotelImageDetail>, stringHash: string -> int)
    ensures var all := existing + incoming;
      UnionImages(existing, incoming).Failure? <==>
        exists i :: 0 <= i < |all| && ComparerGetHashCode(all[i], stringHash).Failure?
  {
  }

  /** `new HotelImageDetail { Link = i.Link, Description = i.Caption }` */
  function PaperFliesImageDetail(i: PaperFliesImage): HotelImageDetail {
    HotelImageDetail(i.link, i.caption)
  }

  /** `new HotelImageDetail { Link = i.Url, Description = i.Description }` */
  function PatagoniaImageDetail(i: PatagoniaImage): HotelImageDetail {
    HotelImageDetail(i.url, i.description)
  }

  // ---------------------------------------------------------------------------
  // New records (the `else` branches)
  // ---------------------------------------------------------------------------

  /** Every present text of `texts` is trimmed. */
  ghost predicate AllTrimmed(texts: seq<Option<string>>) {
    forall i :: 0 <= i < |texts| && texts[i].Some? ==> NoOuterWhiteSpace(texts[i].value)
  }

  /**
   * A new record from PaperFlies (HotelMergerService.cs:96-128): trimmed text, trimmed
   * but not lowercased nor deduplicated tokens, images copied as they come; no
   * coordinates, no city and no amenity images.
   */
  function NewFromPaperFlies(p: PaperFliesHotel): (h: Hotel)
    ensures KeyOf(h) == (p.hotelId, p.destinationId)
    ensures h.name == BeautifyNullable(p.hotelName) && h.description == BeautifyNullable(p.details)
    ensures h.location == EmptyLocation.(address := BeautifyNullable(p.Address()), country := BeautifyNullable(p.Country()))
    ensures AllTrimmed([h.name, h.location.address, h.location.country, h.description])
    ensures h.amenities.general == SelectOrEmpty(p.GeneralAmenities(), Beautify)
    ensures h.amenities.room == SelectOrEmpty(p.RoomAmenities(), Beautify)
    ensures h.bookingConditions == SelectOrEmpty(p.bookingConditions, Beautify)
    ensures h.images == HotelImages(SelectOrEmpty(p.RoomImages(), PaperFliesImageDetail), SelectOrEmpty(p.SiteImages(), PaperFliesImageDetail), [])
  {
    Hotel(
      p.hotelId,
      p.destinationId,
      BeautifyNullable(p.hotelName),
      EmptyLocation.(address := BeautifyNullable(p.Address()), country := BeautifyNullable(p.Country())),
      BeautifyNullable(p.details),
      HotelAmenities(SelectOrEmpty(p.GeneralAmenities(), Beautify), SelectOrEmpty(p.RoomAmenities(), Beautify)),
      HotelImages(SelectOrEmpty(p.RoomImages(), PaperFliesImageDetail), SelectOrEmpty(p.SiteImages(), PaperFliesImageDetail), []),
      SelectOrEmpty(p.bookingConditions, Beautify))
  }

  /**
   * A new record from Patagonia (HotelMergerService.cs:166-197): raw coordinates, even
   * zero; trimmed text; room tokens trimmed only; and the amenity images built from
   * the ROOM images, as the source does.
   */
  function NewFromPatagonia(p: PatagoniaHotel): (h: Hotel)
    ensures KeyOf(h) == (p.id, p.destination)
    ensures h.location == EmptyLocation.(latitude := p.latitude, longitude := p.longitude, address := BeautifyNullable(p.address))
    ensures h.name == BeautifyNullable(p.name) && h.description == BeautifyNullable(p.information)
    ensures AllTrimmed([h.name, h.location.address, h.description])
    ensures h.amenities == HotelAmenities([], SelectOrEmpty(p.amenities, Beautify))
    ensures h.images.amenities == h.images.rooms == SelectOrEmpty(p.RoomImages(), PatagoniaImageDetail)
    ensures h.images.site == [] && h.bookingConditions == []
  {
    var rooms := SelectOrEmpty(p.RoomImages(), PatagoniaImageDetail);
    Hotel(
      p.id,
      p.destination,
      BeautifyNullable(p.name),
      EmptyLocation.(latitude := p.latitude, longitude := p.longitude, address := BeautifyNullable(p.address)),
      BeautifyNullable(p.information),
      HotelAmenities([], SelectOrEmpty(p.amenities, Beautify)),
      HotelImages(rooms, [], rooms),
      [])
  }

  /**
   * A new record from Acme (HotelMergerService.cs:223-243): raw coordinates, trimmed
   * text, and facilities split into lowercase words; no images, room amenities or
   * booking conditions. The postal code is never read.
   */
  function NewFromAcme(a: AcmeHotel): (h: Hotel)
    ensures KeyOf(h) == (a.id, a.destinationId)
    ensures h.location == HotelLocation(a.latitude, a.longitude, BeautifyNullable(a.address), BeautifyNullable(a.city), BeautifyNullable(a.country))
    ensures h.name == BeautifyNullable(a.name) && h.description == BeautifyNullable(a.description)
    ensures AllTrimmed([h.name, h.location.address, h.location.city, h.location.country, h.description])
    ensures h.amenities == HotelAmenities(SelectOrEmpty(a.facilities, BeatifyAndSplitAndToLower), [])
    ensures h.images == EmptyImages && h.bookingConditions == []
  {
    Hotel(
      a.id,
      a.destinationId,
      BeautifyNullable(a.name),
      HotelLocation(a.latitude, a.longitude, BeautifyNullable(a.address), BeautifyNullable(a.city), BeautifyNullable(a.country)),
      BeautifyNullable(a.description),
      HotelAmenities(SelectOrEmpty(a.facilities, BeatifyAndSplitAndToLower), []),
      EmptyImages,
      [])
  }

  // ---------------------------------------------------------------------------
  // Updates (the `TryGetValue` branches)
  // ---------------------------------------------------------------------------

  /**
   * An update from PaperFlies (HotelMergerService.cs:64-92). Name and address are
   * filled if empty; country (raw) and description (trimmed) are overwritten by any
   * non-empty incoming value; tokens are trimmed and lowercased before the union;
   * booking conditions are only trimmed. Coordinates, city and amenity images are
   * left alone. A null image link on either side of either image union throws.
   */
  function UpdateFromPaperFlies(h: Hotel, p: PaperFliesHotel): (r: Result<Hotel, Exception>)
    ensures var rooms := SelectOrEmpty(p.RoomImages(), PaperFliesImageDetail);
      var site := SelectOrEmpty(p.SiteImages(), PaperFliesImageDetail);
      r.Failure? <==> !AllLinked(h.images.rooms + rooms) || !AllLinked(h.images.site + site)
    ensures r.Success? ==> var u := r.value;
      && KeyOf(u) == KeyOf(h)
      && u.name == FillIfEmpty(h.name, p.hotelName)
      && u.location == h.location.(
           address := FillIfEmpty(h.location.address, p.Address()),
           country := if IsNullOrEmpty(p.Country()) then h.location.country else p.Country())
      && u.description == (if IsNullOrEmpty(p.details) then h.description else BeautifyNullable(p.details))
      && u.amenities.general == Union(h.amenities.general, SelectOrEmpty(p.GeneralAmenities(), BeautifyAndToLower))
      && u.amenities.room == Union(h.amenities.room, SelectOrEmpty(p.RoomAmenities(), BeautifyAndToLower))
      && u.images.rooms == UnionImages(h.images.rooms, SelectOrEmpty(p.RoomImages(), PaperFliesImageDetail)).value
      && u.images.site == UnionImages(h.images.site, SelectOrEmpty(p.SiteImages(), PaperFliesImageDetail)).value
      && u.images.amenities == h.images.amenities
      && u.bookingConditions == Union(h.bookingConditions, SelectOrEmpty(p.bookingConditions, Beautify))
  {
    var rooms := UnionImages(h.images.rooms, SelectOrEmpty(p.RoomImages(), PaperFliesImageDetail));
    var site := UnionImages(h.images.site, SelectOrEmpty(p.SiteImages(), PaperFliesImageDetail));
    if rooms.Failure? then Failure(rooms.error)
    else if site.Failure? then Failure(site.error)
    else
      Success(h.(
        name := FillIfEmpty(h.name, p.hotelName),
        location := h.location.(
          address := FillIfEmpty(h.location.address, p.Address()),
          country := if !IsNullOrEmpty(p.Country()) then p.Country() else h.location.country),
        description := if !IsNullOrEmpty(p.details) then BeautifyNullable(p.details) else h.description,
        amenities := HotelAmenities(
          Union(h.amenities.general, SelectOrEmpty(p.GeneralAmenities(), BeautifyAndToLower)),
          Union(h.amenities.room, SelectOrEmpty(p.RoomAmenities(), BeautifyAndToLower))),
        images := h.images.(rooms := rooms.value, site := site.value),
        bookingConditions := Union(h.bookingConditions, SelectOrEmpty(p.bookingConditions, Beautify))))
  }

  /**
   * An update from Patagonia (HotelMergerService.cs:139-162). Name, address and
   * description are filled if empty; coordinates follow `FillCoordinate`, the
   * longitude taking the incoming latitude; room tokens are lowercased before the
   * union. City, country, general amenities, site images and booking conditions are
   * never touched.
   */
  function UpdateFromPatagonia(h: Hotel, p: PatagoniaHotel): (r: Result<Hotel, Exception>)
    ensures var rooms := SelectOrEmpty(p.RoomImages(), PatagoniaImageDetail);
      var amenities := SelectOrEmpty(p.AmenityImages(), PatagoniaImageDetail);
      r.Failure? <==> !AllLinked(h.images.rooms + rooms) || !AllLinked(h.images.amenities + amenities)
    ensures r.Success? ==> var u := r.value;
      && KeyOf(u) == KeyOf(h)
      && u.name == FillIfEmpty(h.name, p.name)
      && u.location == h.location.(
           latitude := FillCoordinate(h.location.latitude, p.latitude, p.latitude),
           longitude := FillCoordinate(h.location.longitude, p.longitude, p.latitude),
           address := FillIfEmpty(h.location.address, p.address))
      && u.description == FillIfEmpty(h.description, p.information)
      && u.amenities == h.amenities.(room := Union(h.amenities.room, SelectOrEmpty(p.amenities, BeautifyAndToLower)))
      && u.images.rooms == UnionImages(h.images.rooms, SelectOrEmpty(p.RoomImages(), PatagoniaImageDetail)).value
      && u.images.amenities == UnionImages(h.images.amenities, SelectOrEmpty(p.AmenityImages(), PatagoniaImageDetail)).value
      && u.images.site == h.images.site
      && u.bookingConditions == h.bookingConditions
  {
    var rooms := UnionImages(h.images.rooms, SelectOrEmpty(p.RoomImages(), PatagoniaImageDetail));
    var amenities := UnionImages(h.images.amenities, SelectOrEmpty(p.AmenityImages(), PatagoniaImageDetail));
    if rooms.Failure? then Failure(rooms.error)
    else if amenities.Failure? then Failure(amenities.error)
    else
      Success(h.(
        name := FillIfEmpty(h.name, p.name),
        location := h.location.(
          latitude := FillCoordinate(h.location.latitude, p.latitude, p.latitude),
          longitude := FillCoordinate(h.location.longitude, p.longitude, p.latitude),
          address := FillIfEmpty(h.location.address, p.address)),
        description := FillIfEmpty(h.description, p.information),
        amenities := h.amenities.(room := Union(h.amenities.room, SelectOrEmpty(p.amenities, BeautifyAndToLower))),
        images := h.images.(rooms := rooms.value, amenities := amenities.value)))
  }

  /**
   * An update from Acme (HotelMergerService.cs:208-219). Name, address, city, country
   * and description are filled if empty; coordinates follow `AcmeCoordinate`, both
   * taking the incoming latitude; facilities are lowercased (not split) before the
   * union. Room amenities, images and booking conditions are never touched, and
   * nothing here can throw.
   */
  function UpdateFromAcme(h: Hotel, a: AcmeHotel): (u: Hotel)
    ensures KeyOf(u) == KeyOf(h)
    ensures u.name == FillIfEmpty(h.name, a.name)
    ensures u.location == HotelLocation(
      AcmeCoordinate(h.location.latitude, a.latitude, a.latitude),
      AcmeCoordinate(h.location.longitude, a.longitude, a.latitude),
      FillIfEmpty(h.location.address, a.address),
      FillIfEmpty(h.location.city, a.city),
      FillIfEmpty(h.location.country, a.country))
    ensures u.description == FillIfEmpty(h.description, a.description)
    ensures u.amenities == h.amenities.(general := Union(h.amenities.general, SelectOrEmpty(a.facilities, BeautifyAndToLower)))
    ensures u.images == h.images && u.bookingConditions == h.bookingConditions
  {
    h.(
      name := FillIfEmpty(h.name, a.name),
      location := HotelLocation(
        AcmeCoordinate(h.location.latitude, a.latitude, a.latitude),
        AcmeCoordinate(h.location.longitude, a.longitude, a.latitude),
        FillIfEmpty(h.location.address, a.address),
        FillIfEmpty(h.location.city, a.city),
        FillIfEmpty(h.location.country, a.country)),
      description := FillIfEmpty(h.description, a.description),
      amenities := h.amenities.(general := Union(h.amenities.general, SelectOrEmpty(a.facilities, BeautifyAndToLower))))
  }

  // ---------------------------------------------------------------------------
  // The keyed table and the fold
  // ---------------------------------------------------------------------------

  /** One supplier record, tagged by the `Map*ToHotel` loop that handles it. */
  datatype SupplierRecord =
    | FromPaperFlies(paperFlies: PaperFliesHotel)
    | FromPatagonia(patagonia: PatagoniaHotel)
    | FromAcme(acme: AcmeHotel)

  function RecordKey(rec: SupplierRecord): Key {
    match rec
    case FromPaperFlies(p) => (p.hotelId, p.destinationId)
    case FromPatagonia(p) => (p.id, p.destination)
    case FromAcme(a) => (a.id, a.destinationId)
  }

  function NewRecord(rec: SupplierRecord): (h: Hotel)
    ensures KeyOf(h) == RecordKey(rec)
  {
    match rec
    case FromPaperFlies(p) => NewFromPaperFlies(p)
    case FromPatagonia(p) => NewFromPatagonia(p)
    case FromAcme(a) => NewFromAcme(a)
  }

  function UpdateRecord(h: Hotel, rec: SupplierRecord): (r: Result<Hotel, Exception>)
    ensures r.Success? ==> KeyOf(r.value) == KeyOf(h)
    ensures rec.FromAcme? ==> r.Success?
  {
    match rec
    case FromPaperFlies(p) => UpdateFromPaperFlies(h, p)
    case FromPatagonia(p) => UpdateFromPatagonia(h, p)
    case FromAcme(a) => Success(UpdateFromAcme(h, a))
  }

  /**
   * The `Dictionary<(string Id, int DestinationId), Hotel>`: its entries and its keys
   * in insertion order, which is the order `Values` enumerates when nothing is removed.
   */
  datatype Catalog = Catalog(hotels: map<Key, Hotel>, keys: seq<Key>)

  const EmptyCatalog := Catalog(map[], [])

  /** Keys listed once each, exactly the keys of the map, and each hotel under its own key. */
  ghost predicate Valid(c: Catalog) {
    && (forall i, j :: 0 <= i < j < |c.keys| ==> c.keys[i] != c.keys[j])
    && (forall k :: k in c.hotels <==> k in c.keys)
    && (forall k :: k in c.hotels ==> KeyOf(c.hotels[k]) == k)
  }

  /**
   * One iteration of a `Map*ToHotel` loop: a known key is updated (`TryGetValue`,
   * then `hotels[key] = hotel`), an unknown key gets a new record (`Add`).
   */
  function Merge(c: Catalog, rec: SupplierRecord): (r: Result<Catalog, Exception>)
    ensures RecordKey(rec) !in c.hotels ==> r == Success(Catalog(c.hotels[RecordKey(rec) := NewRecord(rec)], c.keys + [RecordKey(rec)]))
    ensures RecordKey(rec) in c.hotels ==> r.Failure? == UpdateRecord(c.hotels[RecordKey(rec)], rec).Failure?
    ensures r.Success? && RecordKey(rec) in c.hotels ==>
      r.value.keys == c.keys && r.value.hotels == c.hotels[RecordKey(rec) := UpdateRecord(c.hotels[RecordKey(rec)], rec).value]
    ensures r.Success? && Valid(c) ==> Valid(r.value)
  {
    var key := RecordKey(rec);
    if key in c.hotels then
      match UpdateRecord(c.hotels[key], rec)
      case Failure(e) => Failure(e)
      case Success(h) => Success(Catalog(c.hotels[key := h], c.keys))
    else
      Success(Catalog(c.hotels[key := NewRecord(rec)], c.keys + [key]))
  }

  /** The records merged one after another; the first exception ends the fold. */
  function Fold(c: Catalog, recs: seq<SupplierRecord>): (r: Result<Catalog, Exception>)
    ensures r.Success? && Valid(c) ==> Valid(r.value)
    ensures r.Success? ==> forall k :: k in c.hotels ==> k in r.value.hotels
    decreases |recs|
  {
    if recs == [] then Success(c)
    else
      match Merge(c, recs[0])
      case Failure(e) => Failure(e)
      case Success(next) => Fold(next, recs[1..])
  }

  /** Folding from position `i` is merging `recs[i]` and folding on from `i + 1`. */
  lemma FoldStep(c: Catalog, recs: seq<SupplierRecord>, i: nat)
    requires i < |recs|
    ensures Fold(c, recs[i..]) ==
      match Merge(c, recs[i])
      case Failure(e) => Failure(e)
      case Success(next) => Fold(next, recs[i + 1..])
  {
    assert recs[i..][0] == recs[i];
    assert recs[i..][1..] == recs[i + 1..];
  }

  /** Folding `a + b` is folding `a`, then folding `b` over what `a` left. */
  lemma {:induction false} FoldAppend(c: Catalog, a: seq<SupplierRecord>, b: seq<SupplierRecord>)
    ensures Fold(c, a + b) ==
      match Fold(c, a)
      case Failure(e) => Failure(e)
      case Success(next) => Fold(next, b)
    decreases |a|
  {
    if a == [] {
      assert a + b == b;
    } else {
      assert (a + b)[0] == a[0];
      assert (a + b)[1..] == a[1..] + b;
      match Merge(c, a[0])
      case Failure(e) =>
      case Success(next) => FoldAppend(next, a[1..], b);
    }
  }

  function PaperFliesRecords(dtos: seq<PaperFliesHotel>): (recs: seq<SupplierRecord>)
    ensures |recs| == |dtos| && forall i :: 0 <= i < |dtos| ==> recs[i] == FromPaperFlies(dtos[i])
  {
    seq(|dtos|, i requires 0 <= i < |dtos| => FromPaperFlies(dtos[i]))
  }

  function PatagoniaRecords(dtos: seq<PatagoniaHotel>): (recs: seq<SupplierRecord>)
    ensures |recs| == |dtos| && forall i :: 0 <= i < |dtos| ==> recs[i] == FromPatagonia(dtos[i])
  {
    seq(|dtos|, i requires 0 <= i < |dtos| => FromPatagonia(dtos[i]))
  }

  function AcmeRecords(dtos: seq<AcmeHotel>): (recs: seq<SupplierRecord>)
    ensures |recs| == |dtos| && forall i :: 0 <= i < |dtos| ==> recs[i] == FromAcme(dtos[i])
  {
    seq(|dtos|, i requires 0 <= i < |dtos| => FromAcme(dtos[i]))
  }

  /** The fixed fold order: every PaperFlies record, then Patagonia, then Acme. */
  function Records(paperFlies: seq<PaperFliesHotel>, patagonia: seq<PatagoniaHotel>, acme: seq<AcmeHotel>): seq<SupplierRecord> {
    PaperFliesRecords(paperFlies) + PatagoniaRecords(patagonia) + AcmeRecords(acme)
  }

  /** `hotels.Values.ToList()`: the hotels in the order their keys were added. */
  function Values(c: Catalog): (values: seq<Hotel>)
    requires forall i :: 0 <= i < |c.keys| ==> c.keys[i] in c.hotels
    ensures |values| == |c.keys| && forall i :: 0 <= i < |c.keys| ==> values[i] == c.hotels[c.keys[i]]
  {
    seq(|c.keys|, i requires 0 <= i < |c.keys| => c.hotels[c.keys[i]])
  }

  // ---------------------------------------------------------------------------
  // One record per key, in first-seen order
  // ---------------------------------------------------------------------------

  /** The keys of the records, in fold order, repeats included. */
  function RecordKeys(recs: seq<SupplierRecord>): (keys: seq<Key>)
    ensures |keys| == |recs| && forall i :: 0 <= i < |recs| ==> keys[i] == RecordKey(recs[i])
  {
    seq(|recs|, i requires 0 <= i < |recs| => RecordKey(recs[i]))
  }

  function HotelKeys(hotels: seq<Hotel>): (keys: seq<Key>)
    ensures |keys| == |hotels| && forall i :: 0 <= i < |hotels| ==> keys[i] == KeyOf(hotels[i])
  {
    seq(|hotels|, i requires 0 <= i < |hotels| => KeyOf(hotels[i]))
  }

  /**
   * A fold appends each key the first time a record carries it and never again: a
   * repeated key, from the same supplier or another, is an update, never an `Add`.
   */
  lemma {:induction false} FoldKeys(c: Catalog, recs: seq<SupplierRecord>)
    requires Fold(c, recs).Success?
    ensures Fold(c, recs).value.keys == c.keys + DistinctBy(RecordKeys(recs), Identity, c.hotels.Keys)
    decreases |recs|
  {
    var ks := RecordKeys(recs);
    if recs == [] {
      assert ks == [];
    } else {
      var next := Merge(c, recs[0]).value;
      assert Fold(c, recs) == Fold(next, recs[1..]);
      assert RecordKeys(recs[1..]) == ks[1..];
      FoldKeys(next, recs[1..]);
      MergeKeys(c, recs[0]);
      KeysStep(c.keys, c.hotels.Keys, ks, next.keys, next.hotels.Keys, Fold(c, recs).value.keys);
    }
  }

  /** A merge appends the record's key exactly when the key is new. */
  lemma MergeKeys(c: Catalog, rec: SupplierRecord)
    requires Merge(c, rec).Success?
    ensures var next := Merge(c, rec).value; var k := RecordKey(rec);
      && (k in c.hotels ==> next.keys == c.keys && next.hotels.Keys == c.hotels.Keys)
      && (k !in c.hotels ==> next.keys == c.keys + [k] && next.hotels.Keys == c.hotels.Keys + {k})
  {
  }

  /** One step of `FoldKeys`, on the key lists alone. */
  lemma KeysStep(keys: seq<Key>, seen: set<Key>, ks: seq<Key>, nextKeys: seq<Key>, nextSeen: set<Key>, result: seq<Key>)
    requires ks != []
    requires ks[0] in seen ==> nextKeys == keys && nextSeen == seen
    requires ks[0] !in seen ==> nextKeys == keys + [ks[0]] && nextSeen == seen + {ks[0]}
    requires result == nextKeys + DistinctBy(ks[1..], Identity, nextSeen)
    ensures result == keys + DistinctBy(ks, Identity, seen)
  {
    if ks[0] !in seen {
      assert keys + [ks[0]] + DistinctBy(ks[1..], Identity, nextSeen) == keys + ([ks[0]] + DistinctBy(ks[1..], Identity, nextSeen));
    }
  }

  /**
   * A valid table whose keys are the first occurrences of `keys` holds one hotel per
   * distinct key of `keys`, in that order.
   */
  lemma ValuesOnePerKey(c: Catalog, keys: seq<Key>)
    requires Valid(c) && c.keys == DistinctBy(keys, Identity, {})
    ensures var hotels := Values(c);
      && HotelKeys(hotels) == c.keys
      && (forall i, j :: 0 <= i < j < |hotels| ==> KeyOf(hotels[i]) != KeyOf(hotels[j]))
      && (forall k :: k in keys <==> k in HotelKeys(hotels))
  {
    var out := c.keys;
    assert HotelKeys(Values(c)) == out;
    DistinctByKeys(keys, Identity, {});
    assert KeySet(out, Identity) == KeySet(keys, Identity);
    forall k ensures k in keys <==> k in out {
      if k in keys {
        var i :| 0 <= i < |keys| && keys[i] == k;
        assert Identity(keys[i]) in KeySet(keys, Identity);
        assert k in KeySet(out, Identity);
        var j :| 0 <= j < |out| && Identity(out[j]) == k;
        assert out[j] == k;
      }
      if k in out {
        var j :| 0 <= j < |out| && out[j] == k;
        assert Identity(out[j]) in KeySet(out, Identity);
        assert k in KeySet(keys, Identity);
        var i :| 0 <= i < |keys| && Identity(keys[i]) == k;
        assert keys[i] == k;
      }
    }
  }


  /**
   * `hotels` holds one hotel for each distinct key of `keys`, in the order the keys
   * first appear, and no key twice.
   */
  ghost predicate OneHotelPerKey(hotels: seq<Hotel>, keys: seq<Key>) {
    && HotelKeys(hotels) == DistinctBy(keys, Identity, {})
    && (forall i, j :: 0 <= i < j < |hotels| ==> KeyOf(hotels[i]) != KeyOf(hotels[j]))
    && (forall k :: k in keys <==> k in HotelKeys(hotels))
  }

  /**
   * What `SearchMergeHotelAsync` returns for the three fetched lists: exactly one
   * hotel per distinct key of the three lists, in the order the keys first appear in
   * PaperFlies, then Patagonia, then Acme.
   */
  function MergeAll(paperFlies: seq<PaperFliesHotel>, patagonia: seq<PatagoniaHotel>, acme: seq<AcmeHotel>): (r: Result<seq<Hotel>, Exception>)
    ensures r.Success? ==> OneHotelPerKey(r.value, RecordKeys(Records(paperFlies, patagonia, acme)))
  {
    var recs := Records(paperFlies, patagonia, acme);
    match Fold(EmptyCatalog, recs)
    case Failure(e) => Failure(e)
    case Success(c) =>
      assert Valid(EmptyCatalog) && EmptyCatalog.hotels.Keys == {};
      FoldKeys(EmptyCatalog, recs);
      ValuesOnePerKey(c, RecordKeys(recs));
      Success(Values(c))
  }

  /** A failing PaperFlies phase fails the whole merge. */
  lemma MergeAllFirstFails(paperFlies: seq<PaperFliesHotel>, patagonia: seq<PatagoniaHotel>, acme: seq<AcmeHotel>, e: Exception)
    requires Fold(EmptyCatalog, PaperFliesRecords(paperFlies)) == Failure(e)
    ensures MergeAll(paperFlies, patagonia, acme) == Failure(e)
  {
    var pf, pt, ac := PaperFliesRecords(paperFlies), PatagoniaRecords(patagonia), AcmeRecords(acme);
    FoldAppend(EmptyCatalog, pf + pt, ac);
    FoldAppend(EmptyCatalog, pf, pt);
  }

  /** A failing Patagonia phase fails the whole merge. */
  lemma MergeAllSecondFails(paperFlies: seq<PaperFliesHotel>, patagonia: seq<PatagoniaHotel>, acme: seq<AcmeHotel>, c1: Catalog, e: Exception)
    requires Fold(EmptyCatalog, PaperFliesRecords(paperFlies)) == Success(c1)
    requires Fold(c1, PatagoniaRecords(patagonia)) == Failure(e)
    ensures MergeAll(paperFlies, patagonia, acme) == Failure(e)
  {
    var pf, pt, ac := PaperFliesRecords(paperFlies), PatagoniaRecords(patagonia), AcmeRecords(acme);
    FoldAppend(EmptyCatalog, pf + pt, ac);
    FoldAppend(EmptyCatalog, pf, pt);
  }

  /** Three successful phases: the merge returns the values of the last table. */
  lemma MergeAllSucceeds(paperFlies: seq<PaperFliesHotel>, patagonia: seq<PatagoniaHotel>, acme: seq<AcmeHotel>, c1: Catalog, c2: Catalog, c3: Catalog)
    requires Fold(EmptyCatalog, PaperFliesRecords(paperFlies)) == Success(c1)
    requires Fold(c1, PatagoniaRecords(patagonia)) == Success(c2)
    requires Fold(c2, AcmeRecords(acme)) == Success(c3)
    ensures Valid(c3) && MergeAll(paperFlies, patagonia, acme) == Success(Values(c3))
  {
    var pf, pt, ac := PaperFliesRecords(paperFlies), PatagoniaRecords(patagonia), AcmeRecords(acme);
    FoldAppend(EmptyCatalog, pf + pt, ac);
    FoldAppend(EmptyCatalog, pf, pt);
    assert Valid(EmptyCatalog);
  }
}
