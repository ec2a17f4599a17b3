/**
 * Services/HotelMergerService.cs: the dictionary the merge fills, the three loops
 * that fill it, and the orchestration that runs them in order.
 */
module HotelMergerService {
  import opened Wrappers
  import opened HotelImageDetails
  import opened Models
  import opened Dtos
  import opened HotelMerge

  /**
   * The `Dictionary<(string Id, int DestinationId), Hotel>` local to the merge, with
   * the keys in the order they were added.
   */
  class HotelDictionary {
    var hotels: map<Key, Hotel>
    var keys: seq<Key>

    function View(): Catalog
      reads this
    {
      Catalog(hotels, keys)
    }

    constructor()
      ensures View() == EmptyCatalog
    {
      hotels := map[];
      keys := [];
    }

    /** `TryGetValue`: the stored hotel, if the key is present. */
    method TryGetValue(key: Key) returns (hotel: Option<Hotel>)
      ensures hotel.Some? <==> key in hotels
      ensures hotel.Some? ==> hotel.value == hotels[key]
    {
      if key in hotels {
        hotel := Some(hotels[key]);
      } else {
        hotel := None;
      }
    }

    /** `Add`, which throws on a present key; callers only add absent keys. */
    method Add(key: Key, hotel: Hotel)
      requires key !in hotels
      modifies this
      ensures hotels == old(hotels)[key := hotel]
      ensures keys == old(keys) + [key]
    {
      hotels := hotels[key := hotel];
      keys := keys + [key];
    }

    /** The indexer setter: replaces the entry of a present key, adds an absent one. */
    method Set(key: Key, hotel: Hotel)
      modifies this
      ensures hotels == old(hotels)[key := hotel]
      ensures keys == if key in old(hotels) then old(keys) else old(keys) + [key]
    {
      if key !in hotels {
        keys := keys + [key];
      }
      hotels := hotels[key := hotel];
    }
  }

  /**
   * `MapPaperFliesToHotel`: each record updates the hotel under its key or adds a new
   * one. The dictionary ends as `Fold` says, or the exception `Fold` meets escapes.
   */
  method MapPaperFliesToHotel(hotels: HotelDictionary, paperFliesDtos: seq<PaperFliesHotel>) returns (error: Option<Exception>)
    modifies hotels
    ensures var spec := Fold(old(hotels.View()), PaperFliesRecords(paperFliesDtos));
      && (spec.Success? <==> error.None?)
      && (spec.Success? ==> hotels.View() == spec.value)
      && (spec.Failure? ==> error == Some(spec.error))
  {
    ghost var recs := PaperFliesRecords(paperFliesDtos);
    ghost var start := hotels.View();
    for i := 0 to |paperFliesDtos|
      invariant Fold(start, recs) == Fold(hotels.View(), recs[i..])
    {
      var paperFliesHotel := paperFliesDtos[i];
      var key := (paperFliesHotel.hotelId, paperFliesHotel.destinationId);
      FoldStep(hotels.View(), recs, i);
      var hotel := hotels.TryGetValue(key);
      if hotel.Some? {
        var updated := UpdateFromPaperFlies(hotel.value, paperFliesHotel);
        if updated.Failure? {
          return Some(updated.error);
        }
        hotels.Set(key, updated.value);
      } else {
        hotels.Add(key, NewFromPaperFlies(paperFliesHotel));
      }
    }
    assert recs[|recs|..] == [];
    return None;
  }

  /** `MapPatagoniaHotelToHotel`, specified like `MapPaperFliesToHotel`. */
  method MapPatagoniaHotelToHotel(hotels: HotelDictionary, patagoniaDtos: seq<PatagoniaHotel>) returns (error: Option<Exception>)
    modifies hotels
    ensures var spec := Fold(old(hotels.View()), PatagoniaRecords(patagoniaDtos));
      && (spec.Success? <==> error.None?)
      && (spec.Success? ==> hotels.View() == spec.value)
      && (spec.Failure? ==> error == Some(spec.error))
  {
    ghost var recs := PatagoniaRecords(patagoniaDtos);
    ghost var start := hotels.View();
    for i := 0 to |patagoniaDtos|
      invariant Fold(start, recs) == Fold(hotels.View(), recs[i..])
    {
      var patagoniaHotel := patagoniaDtos[i];
      var key := (patagoniaHotel.id, patagoniaHotel.destination);
      FoldStep(hotels.View(), recs, i);
      var hotel := hotels.TryGetValue(key);
      if hotel.Some? {
        var updated := UpdateFromPatagonia(hotel.value, patagoniaHotel);
        if updated.Failure? {
          return Some(updated.error);
        }
        hotels.Set(key, updated.value);
      } else {
        hotels.Add(key, NewFromPatagonia(patagoniaHotel));
      }
    }
    assert recs[|recs|..] == [];
    return None;
  }

  /** `MapAcmeHotelToHotel`: the Acme update cannot throw, so neither can this loop. */
  method MapAcmeHotelToHotel(hotels: HotelDictionary, acmeHotelDtos: seq<AcmeHotel>)
    modifies hotels
    ensures Fold(old(hotels.View()), AcmeRecords(acmeHotelDtos)) == Success(hotels.View())
  {
    ghost var recs := AcmeRecords(acmeHotelDtos);
    ghost var start := hotels.View();
    for i := 0 to |acmeHotelDtos|
      invariant Fold(start, recs) == Fold(hotels.View(), recs[i..])
    {
      var acmeHotel := acmeHotelDtos[i];
      var key := (acmeHotel.id, acmeHotel.destinationId);
      FoldStep(hotels.View(), recs, i);
      var hotel := hotels.TryGetValue(key);
      if hotel.Some? {
        hotels.Set(key, UpdateFromAcme(hotel.value, acmeHotel));
      } else {
        hotels.Add(key, NewFromAcme(acmeHotel));
      }
    }
    assert recs[|recs|..] == [];
  }

  /**
   * `SearchMergeHotelAsync` once the three fetches have completed: a missing payload
   * is an empty list, the loops run PaperFlies, Patagonia, Acme over one dictionary,
   * and its values are returned. The id filters are accepted and never read.
   */
  method SearchMergeHotel(
    hotelIds: seq<string>,
    destinationIds: seq<int>,
    acmeData: Option<seq<AcmeHotel>>,
    patagoniaData: Option<seq<PatagoniaHotel>>,
    paperFliesData: Option<seq<PaperFliesHotel>>)
    returns (result: Result<seq<Hotel>, Exception>)
    ensures result == MergeAll(paperFliesData.GetOr([]), patagoniaData.GetOr([]), acmeData.GetOr([]))
  {
    var acmeHotelDtos := acmeData.GetOr([]);
    var patagoniaDtos := patagoniaData.GetOr([]);
    var paperFliesDtos := paperFliesData.GetOr([]);

    var hotels := new HotelDictionary();
    var error := MapPaperFliesToHotel(hotels, paperFliesDtos);
    if error.Some? {
      MergeAllFirstFails(paperFliesDtos, patagoniaDtos, acmeHotelDtos, error.value);
      return Failure(error.value);
    }
    ghost var afterPaperFlies := hotels.View();
    error := MapPatagoniaHotelToHotel(hotels, patagoniaDtos);
    if error.Some? {
      MergeAllSecondFails(paperFliesDtos, patagoniaDtos, acmeHotelDtos, afterPaperFlies, error.value);
      return Failure(error.value);
    }
    ghost var afterPatagonia := hotels.View();
    MapAcmeHotelToHotel(hotels, acmeHotelDtos);
    MergeAllSucceeds(paperFliesDtos, patagoniaDtos, acmeHotelDtos, afterPaperFlies, afterPatagonia, hotels.View());
    return Success(Values(hotels.View()));
  }
}
