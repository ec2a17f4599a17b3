/**
 * The three supplier payloads after deserialisation (the classes under Clients/Dtos).
 * A JSON null and a missing property that has no initialiser are both `None`; a
 * property whose initialiser is `new()` or `[]` is that value when the JSON leaves it
 * out, which is a `Some` here.
 */
module Dtos {
  import opened Wrappers
  import opened NumericExtensions

  datatype PaperFliesLocation = PaperFliesLocation(address: Option<string>, country: Option<string>)

  datatype PaperFliesAmenities = PaperFliesAmenities(general: Option<seq<string>>, room: Option<seq<string>>)

  datatype PaperFliesImage = PaperFliesImage(link: Option<string>, caption: Option<string>)

  datatype PaperFliesImages = PaperFliesImages(rooms: Option<seq<PaperFliesImage>>, site: Option<seq<PaperFliesImage>>)

  datatype PaperFliesHotel = PaperFliesHotel(
    hotelId: string,
    destinationId: int,
    hotelName: Option<string>,
    location: Option<PaperFliesLocation>,
    details: Option<string>,
    amenities: Option<PaperFliesAmenities>,
    images: Option<PaperFliesImages>,
    bookingConditions: Option<seq<string>>)
  {
    /** `Location?.Address` */
    function Address(): Option<string> {
      if location.Some? then location.value.address else None
    }

    /** `Location?.Country` */
    function Country(): Option<string> {
      if location.Some? then location.value.country else None
    }

    /** `Amenities?.General` */
    function GeneralAmenities(): Option<seq<string>> {
      if amenities.Some? then amenities.value.general else None
    }

    /** `Amenities?.Room` */
    function RoomAmenities(): Option<seq<string>> {
      if amenities.Some? then amenities.value.room else None
    }

    /** `Images?.Rooms` */
    function RoomImages(): Option<seq<PaperFliesImage>> {
      if images.Some? then images.value.rooms else None
    }

    /** `Images?.Site` */
    function SiteImages(): Option<seq<PaperFliesImage>> {
      if images.Some? then images.value.site else None
    }
  }

  datatype PatagoniaImage = PatagoniaImage(url: Option<string>, description: Option<string>)

  datatype PatagoniaImages = PatagoniaImages(rooms: Option<seq<PatagoniaImage>>, amenities: Option<seq<PatagoniaImage>>)

  datatype PatagoniaHotel = PatagoniaHotel(
    id: string,
    destination: int,
    name: Option<string>,
    latitude: Option<Coordinate>,
    longitude: Option<Coordinate>,
    address: Option<string>,
    information: Option<string>,
    amenities: Option<seq<string>>,
    images: Option<PatagoniaImages>)
  {
    /** `Images?.Rooms` */
    function RoomImages(): Option<seq<PatagoniaImage>> {
      if images.Some? then images.value.rooms else None
    }

    /** `Images?.Amenities` */
    function AmenityImages(): Option<seq<PatagoniaImage>> {
      if images.Some? then images.value.amenities else None
    }
  }

  datatype AcmeHotel = AcmeHotel(
    id: string,
    destinationId: int,
    name: Option<string>,
    latitude: Option<Coordinate>,
    longitude: Option<Coordinate>,
    address: Option<string>,
    city: Option<string>,
    country: Option<string>,
    postalCode: Option<string>,
    description: Option<string>,
    facilities: Option<seq<string>>)
}
