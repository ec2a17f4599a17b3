/**
 * The canonical hotel record (Models/Hotel.cs, HotelLocation.cs, HotelAmenities.cs,
 * HotelImages.cs). The C# classes are property bags; here they are values, and a
 * field the source assigns in place is a field replaced in a new value.
 */
module Models {
  import opened Wrappers
  import opened NumericExtensions
  import opened HotelImageDetails

  datatype HotelLocation = HotelLocation(
    latitude: Option<Coordinate>,
    longitude: Option<Coordinate>,
    address: Option<string>,
    city: Option<string>,
    country: Option<string>)

  datatype HotelAmenities = HotelAmenities(general: seq<string>, room: seq<string>)

  datatype HotelImages = HotelImages(
    rooms: seq<HotelImageDetail>,
    site: seq<HotelImageDetail>,
    amenities: seq<HotelImageDetail>)

  datatype Hotel = Hotel(
    id: string,
    destinationId: int,
    name: Option<string>,
    location: HotelLocation,
    description: Option<string>,
    amenities: HotelAmenities,
    images: HotelImages,
    bookingConditions: seq<string>)

  /** The defaults of the property initialisers: null scalars and empty lists. */
  const EmptyLocation := HotelLocation(None, None, None, None, None)
  const EmptyAmenities := HotelAmenities([], [])
  const EmptyImages := HotelImages([], [], [])
}
