/**
 * The per-row helpers of `IstanbulNeighborhoodVectorDB` in utils/vector_db_creation.py:
 * the text embedded for one CSV row (`create_text_for_embedding`) and the metadata stored
 * beside it (`create_metadata`). Float formatting inside f-strings is the parameter `render`.
 */
module IndexText {
  import opened Wrappers
  import opened Text
  import opened Seqs
  import opened DataModel

  // ---------------------------------------------------------------- embedding text

  /** The place types of `create_text_for_embedding`, in order, with their columns. */
  const PlaceTypes: seq<(string, Column)> := [
    ("restaurant", Restaurant), ("library", Library), ("school", School), ("park", Park),
    ("atm", Atm), ("cafe", Cafe), ("pharmacy", Pharmacy), ("hospital", Hospital),
    ("mosque", Mosque), ("bus_station", BusStation), ("train_station", TrainStation),
    ("transit_station", TransitStation)]

  /** At most this many amenities are listed: `amenities[:8]`. */
  const MaxAmenities: int := 8

  /** `place_type in row and pd.notna(row[place_type]) and row[place_type] > 0`. */
  predicate PositiveCount(r: Row, c: Column) {
    Get(r, c).Real? && Get(r, c).v > 0.0
  }

  /** `f"{int(row[place_type])} {place_type.replace('_', ' ')}s"`. */
  function AmenityText(r: Row, place: (string, Column)): string
    requires PositiveCount(r, place.1)
  {
    IntStr(Trunc(Get(r, place.1).v)) + " " + ReplaceChar(place.0, '_', ' ') + "s"
  }

  /** The amenity entries for the place types `places`, in their order. */
  function AmenitiesOf(r: Row, places: seq<(string, Column)>): seq<string> {
    if places == [] then []
    else
      var last := places[|places| - 1];
      AmenitiesOf(r, places[..|places| - 1]) + (if PositiveCount(r, last.1) then [AmenityText(r, last)] else [])
  }

  /** An optional part: present when the column has a number. */
  function NumberPart(r: Row, c: Column, prefix: string, suffix: string, render: Num -> string): seq<string> {
    if Get(r, c).Real? then [prefix + render(Get(r, c)) + suffix] else []
  }

  function NeighborhoodPart(r: Row): string {
    "Neighborhood: " + r.mahalle + " in " + r.ilce + " district"
  }

  function LocationPart(r: Row, render: Num -> string): string {
    "Location: Latitude " + render(Get(r, Enlem)) + ", Longitude " + render(Get(r, Boylam))
  }

  function AmenityPart(amenities: seq<string>): string {
    "Nearby amenities: " + Join(Take(amenities, MaxAmenities), ", ")
  }

  function DescriptionPart(description: string): string {
    "Description: " + description
  }

  /** The population part, with `int(row['Nüfus'])`. */
  function PopulationPart(r: Row): string
    requires Get(r, Nufus).Real?
  {
    "Population: " + IntStr(Trunc(Get(r, Nufus).v)) + " residents"
  }

  /** The building part; the two later columns are shown even when NaN. */
  function BuildingsPart(r: Row, render: Num -> string): string {
    "Buildings: " + render(Get(r, Before1980)) + " pre-1980, " + render(Get(r, From1980To2000))
    + " 1980-2000, " + render(Get(r, After2000)) + " post-2000"
  }

  function EarthquakePart(r: Row, render: Num -> string): string {
    "Earthquake scenario: " + render(Get(r, CanKaybiSayisi)) + " estimated casualties, "
    + render(Get(r, CokAgirHasarliBinaSayisi)) + " severely damaged buildings"
  }

  /** The amenity entries of row `r`. */
  function Amenities(r: Row): seq<string> {
    AmenitiesOf(r, PlaceTypes)
  }

  /** A part that is there under condition `present`. */
  function PartIf(present: bool, part: string): seq<string> {
    if present then [part] else []
  }

  /** The parts `create_text_for_embedding` collects for row `r`, in order; the
      concatenation is grouped as the appends happen. */
  function TextParts(r: Row, render: Num -> string): seq<string> {
    HeadParts(r, render)
    + PartIf(Amenities(r) != [], AmenityPart(Amenities(r)))
    + (if Get(r, Nufus).Real? then [PopulationPart(r)] else [])
    + PartIf(Get(r, Before1980).Real?, BuildingsPart(r, render))
    + PartIf(Get(r, CanKaybiSayisi).Real?, EarthquakePart(r, render))
  }

  /** The description, names, location, rent and index parts. */
  function HeadParts(r: Row, render: Num -> string): seq<string> {
    (if r.description.Some? then [DescriptionPart(r.description.value)] else [])
    + [NeighborhoodPart(r)] + [LocationPart(r, render)]
    + NumberPart(r, AvgRentPerSqM, "Average rent: ", " TRY per square meter", render)
    + NumberPart(r, GreenIndex, "Green space index: ", "", render)
    + NumberPart(r, SocietyWelfareIndex, "Society welfare index: ", "", render)
    + NumberPart(r, IndexYasamKalitesi, "Quality of life index: ", "", render)
  }

  /** The text that is embedded for row `r`. */
  function EmbeddingText(r: Row, render: Num -> string): string {
    Join(TextParts(r, render), " | ")
  }

  /** `create_text_for_embedding(row)`. */
  method CreateTextForEmbedding(row: Row, render: Num -> string) returns (text: string)
    ensures text == EmbeddingText(row, render)
  {
    var textParts: seq<string> := [];
    if row.description.Some? {
      textParts := textParts + [DescriptionPart(row.description.value)];
    }
    textParts := textParts + [NeighborhoodPart(row)];
    textParts := textParts + [LocationPart(row, render)];
    assert textParts == (if row.description.Some? then [DescriptionPart(row.description.value)] else [])
      + [NeighborhoodPart(row)] + [LocationPart(row, render)];
    textParts := AddNumberPart(textParts, row, AvgRentPerSqM, "Average rent: ", " TRY per square meter", render);
    textParts := AddNumberPart(textParts, row, GreenIndex, "Green space index: ", "", render);
    textParts := AddNumberPart(textParts, row, SocietyWelfareIndex, "Society welfare index: ", "", render);
    textParts := AddNumberPart(textParts, row, IndexYasamKalitesi, "Quality of life index: ", "", render);
    assert textParts == HeadParts(row, render);
    var amenities := CollectAmenities(row, PlaceTypes);
    if amenities != [] {
      textParts := textParts + [AmenityPart(amenities)];
    }
    assert textParts == HeadParts(row, render) + PartIf(Amenities(row) != [], AmenityPart(Amenities(row)));
    ghost var sofar := textParts;
    if Get(row, Nufus).Real? {
      textParts := textParts + [PopulationPart(row)];
    }
    assert textParts == sofar + (if Get(row, Nufus).Real? then [PopulationPart(row)] else []);
    sofar := textParts;
    if Get(row, Before1980).Real? {
      textParts := textParts + [BuildingsPart(row, render)];
    }
    assert textParts == sofar + PartIf(Get(row, Before1980).Real?, BuildingsPart(row, render));
    sofar := textParts;
    if Get(row, CanKaybiSayisi).Real? {
      textParts := textParts + [EarthquakePart(row, render)];
    }
    assert textParts == sofar + PartIf(Get(row, CanKaybiSayisi).Real?, EarthquakePart(row, render));
    text := Join(textParts, " | ");
  }

  /** `if pd.notna(row.get(c)): text_parts.append(f"{prefix}{row[c]}{suffix}")`. */
  method AddNumberPart(textParts: seq<string>, row: Row, c: Column, prefix: string, suffix: string, render: Num -> string)
    returns (parts: seq<string>)
    ensures parts == textParts + NumberPart(row, c, prefix, suffix, render)
  {
    parts := textParts;
    if Get(row, c).Real? {
      parts := parts + [prefix + render(Get(row, c)) + suffix];
    }
  }

  /** The amenities loop of `create_text_for_embedding`, over the place types `places`. */
  method CollectAmenities(row: Row, places: seq<(string, Column)>) returns (amenities: seq<string>)
    ensures amenities == AmenitiesOf(row, places)
  {
    amenities := [];
    for i := 0 to |places|
      invariant amenities == AmenitiesOf(row, places[..i])
    {
      assert places[..i + 1][..i] == places[..i];
      var placeType := places[i];
      if PositiveCount(row, placeType.1) {
        amenities := amenities + [AmenityText(row, placeType)];
      }
    }
    assert places[..|places|] == places;
  }

  /** The amenity list holds one entry for each place type with a positive count, and
      nothing else. */
  lemma AmenitiesExact(r: Row, places: seq<(string, Column)>)
    ensures forall a :: a in AmenitiesOf(r, places) <==>
      exists i :: 0 <= i < |places| && PositiveCount(r, places[i].1) && a == AmenityText(r, places[i])
    ensures |AmenitiesOf(r, places)| <= |places|
  {
    AmenitiesSound(r, places);
    AmenitiesComplete(r, places);
  }

  /** Every amenity entry comes from a place type with a positive count; there are at most
      as many entries as place types. */
  lemma {:induction false} AmenitiesSound(r: Row, places: seq<(string, Column)>)
    ensures forall a :: a in AmenitiesOf(r, places) ==>
      exists i :: 0 <= i < |places| && PositiveCount(r, places[i].1) && a == AmenityText(r, places[i])
    ensures |AmenitiesOf(r, places)| <= |places|
  {
    if places != [] {
      var init := places[..|places| - 1];
      AmenitiesSound(r, init);
      forall a | a in AmenitiesOf(r, places)
        ensures exists i :: 0 <= i < |places| && PositiveCount(r, places[i].1) && a == AmenityText(r, places[i])
      {
        if a in AmenitiesOf(r, init) {
          var i :| 0 <= i < |init| && PositiveCount(r, init[i].1) && a == AmenityText(r, init[i]);
          assert places[i] == init[i];
        } else {
          assert PositiveCount(r, places[|places| - 1].1) && a == AmenityText(r, places[|places| - 1]);
        }
      }
    }
  }

  /** Every place type with a positive count has its amenity entry. */
  lemma {:induction false} AmenitiesComplete(r: Row, places: seq<(string, Column)>)
    ensures forall i :: 0 <= i < |places| && PositiveCount(r, places[i].1) ==>
      AmenityText(r, places[i]) in AmenitiesOf(r, places)
  {
    if places != [] {
      var init := places[..|places| - 1];
      AmenitiesComplete(r, init);
      forall i | 0 <= i < |places| - 1 && PositiveCount(r, places[i].1)
        ensures AmenityText(r, places[i]) in AmenitiesOf(r, places)
      {
        assert init[i] == places[i];
      }
    }
  }

  /** The amenity list is empty exactly when no place type has a positive count. */
  lemma AmenitiesPresent(r: Row)
    ensures Amenities(r) != [] <==> exists i :: 0 <= i < |PlaceTypes| && PositiveCount(r, PlaceTypes[i].1)
  {
    var amenities := Amenities(r);
    AmenitiesExact(r, PlaceTypes);
    if amenities != [] {
      assert amenities[0] in amenities;
    }
    if exists i :: 0 <= i < |PlaceTypes| && PositiveCount(r, PlaceTypes[i].1) {
      var i :| 0 <= i < |PlaceTypes| && PositiveCount(r, PlaceTypes[i].1);
      assert AmenityText(r, PlaceTypes[i]) in amenities;
    }
  }

  /** A non-empty amenity list puts the amenities part right after the head parts. */
  lemma AmenityPartPlaced(r: Row, render: Num -> string)
    ensures Amenities(r) != [] ==>
      |TextParts(r, render)| > |HeadParts(r, render)| && TextParts(r, render)[|HeadParts(r, render)|] == AmenityPart(Amenities(r))
  {
  }

  /** The text starts with the description part when there is a description and with the
      neighborhood part otherwise; the neighborhood and location parts are always there. */
  lemma EmbeddingTextLayout(r: Row, render: Num -> string)
    ensures var parts := TextParts(r, render);
      && NeighborhoodPart(r) in parts && LocationPart(r, render) in parts
      && (r.description.Some? ==> "Description: " + r.description.value + " | " <= EmbeddingText(r, render))
      && (r.description.None? ==> NeighborhoodPart(r) + " | " <= EmbeddingText(r, render))
  {
    var parts, head := TextParts(r, render), HeadParts(r, render);
    var lead: seq<string> := if r.description.Some? then [DescriptionPart(r.description.value)] else [];
    HeadPartsPrefix(r, render);
    assert head[|lead|] == NeighborhoodPart(r) && head[|lead| + 1] == LocationPart(r, render);
    assert parts[|lead|] == head[|lead|] && parts[|lead| + 1] == head[|lead| + 1];
    assert parts[0] == head[0];
    JoinStartsWithFirst(parts, " | ");
  }

  /** The head parts come first. */
  lemma HeadPartsPrefix(r: Row, render: Num -> string)
    ensures HeadParts(r, render) <= TextParts(r, render)
  {
    var head := HeadParts(r, render);
    var withAmenities := head + PartIf(Amenities(r) != [], AmenityPart(Amenities(r)));
    var withPopulation := withAmenities + (if Get(r, Nufus).Real? then [PopulationPart(r)] else []);
    var withBuildings := withPopulation + PartIf(Get(r, Before1980).Real?, BuildingsPart(r, render));
    assert TextParts(r, render) == withBuildings + PartIf(Get(r, CanKaybiSayisi).Real?, EarthquakePart(r, render));
    assert head <= withAmenities <= withPopulation <= withBuildings;
  }

  // ---------------------------------------------------------------- metadata

  /** The `numeric_fields` mapping of `create_metadata`, in its order. */
  const NumericFields: seq<(MetaKey, Column)> := [
    (AvgRentPerSqm, AvgRentPerSqM), (GreenIndexKey, GreenIndex),
    (SocietyWelfareIndexKey, SocietyWelfareIndex), (YasamKalitesi, IndexYasamKalitesi),
    (Yurunebilirlik, IndexYurunebilirlik), (KulturelAktivite, KulturelAktiviteIndex),
    (NufusKey, Nufus), (RestaurantKey, Restaurant), (LibraryKey, Library),
    (SchoolKey, School), (ParkKey, Park), (CafeKey, Cafe),
    (PharmacyKey, Pharmacy), (HospitalKey, Hospital)]

  /** The entries for the mapped fields `fields`, on top of latitude and longitude. */
  function MetadataValues(r: Row, fields: seq<(MetaKey, Column)>): map<MetaKey, Num> {
    if fields == [] then map[Latitude := Get(r, Enlem), Longitude := Get(r, Boylam)]
    else
      var m := MetadataValues(r, fields[..|fields| - 1]);
      var f := fields[|fields| - 1];
      if f.1 in r.nums then m[f.0 := Real(r.nums[f.1])] else m
  }

  /** `create_metadata(row)` as a value. */
  function MetadataOf(r: Row): Metadata {
    Metadata(r.mahalle, r.ilce, MetadataValues(r, NumericFields))
  }

  /** `create_metadata(row)`. */
  method CreateMetadata(row: Row) returns (metadata: Metadata)
    ensures metadata == MetadataOf(row)
  {
    var values := map[Latitude := Get(row, Enlem), Longitude := Get(row, Boylam)];
    for i := 0 to |NumericFields|
      invariant values == MetadataValues(row, NumericFields[..i])
    {
      assert NumericFields[..i + 1][..i] == NumericFields[..i];
      var (metaKey, dfKey) := NumericFields[i];
      if dfKey in row.nums {
        values := values[metaKey := Real(row.nums[dfKey])];
      }
    }
    assert NumericFields[..|NumericFields|] == NumericFields;
    metadata := Metadata(row.mahalle, row.ilce, values);
  }

  /** The keys of `fields` are distinct and are neither latitude nor longitude. */
  predicate FieldsWellFormed(fields: seq<(MetaKey, Column)>) {
    && (forall i :: 0 <= i < |fields| ==> fields[i].0 != Latitude && fields[i].0 != Longitude)
    && (forall i, j :: 0 <= i < j < |fields| ==> fields[i].0 != fields[j].0)
  }

  lemma {:induction false} MetadataValuesExact(r: Row, fields: seq<(MetaKey, Column)>)
    requires FieldsWellFormed(fields)
    ensures var m := MetadataValues(r, fields);
      && Latitude in m && Longitude in m
      && m[Latitude] == Get(r, Enlem) && m[Longitude] == Get(r, Boylam)
      && (forall i :: 0 <= i < |fields| ==>
            (fields[i].0 in m <==> fields[i].1 in r.nums)
            && (fields[i].1 in r.nums ==> m[fields[i].0] == Real(r.nums[fields[i].1])))
      && (forall k :: k in m ==>
            (k == Latitude || k == Longitude || exists i :: 0 <= i < |fields| && fields[i].0 == k))
  {
    if fields != [] {
      var init, f := fields[..|fields| - 1], fields[|fields| - 1];
      assert FieldsWellFormed(init);
      MetadataValuesExact(r, init);
      var m := MetadataValues(r, fields);
      forall k | k in m ensures k == Latitude || k == Longitude || exists i :: 0 <= i < |fields| && fields[i].0 == k {
        if k != f.0 && k != Latitude && k != Longitude {
          var i :| 0 <= i < |init| && init[i].0 == k;
          assert fields[i].0 == k;
        }
      }
      forall i | 0 <= i < |fields|
        ensures (fields[i].0 in m <==> fields[i].1 in r.nums)
        ensures (fields[i].1 in r.nums ==> m[fields[i].0] == Real(r.nums[fields[i].1]))
      {
        if i < |init| {
          assert init[i] == fields[i] && fields[i].0 != f.0;
        }
      }
    }
  }

  /** `create_metadata` always holds the two names, latitude and longitude; each of the
      fourteen mapped keys exactly when its column has a number, with that number; and no
      other key. */
  lemma MetadataContents(r: Row)
    ensures var m := MetadataOf(r);
      && m.mahalle == r.mahalle && m.ilce == r.ilce
      && Latitude in m.values && Longitude in m.values
      && m.values[Latitude] == Get(r, Enlem) && m.values[Longitude] == Get(r, Boylam)
      && (forall i :: 0 <= i < |NumericFields| ==>
            (NumericFields[i].0 in m.values <==> NumericFields[i].1 in r.nums)
            && (NumericFields[i].1 in r.nums ==> m.values[NumericFields[i].0] == Real(r.nums[NumericFields[i].1])))
      && (forall k :: k in m.values ==>
            (k == Latitude || k == Longitude || exists i :: 0 <= i < |NumericFields| && NumericFields[i].0 == k))
  {
    NumericFieldsKeys();
    MetadataValuesExact(r, NumericFields);
  }

  /** The fourteen mapped keys are distinct, and none is latitude, longitude, an earthquake
      figure or a station count. */
  lemma NumericFieldsKeys()
    ensures FieldsWellFormed(NumericFields)
    ensures forall i :: 0 <= i < |NumericFields| ==> NumericFields[i].0 !in ExcludedKeys
  {
    assert forall i :: 0 <= i < |NumericFields| ==> FieldPosition(NumericFields[i].0) == i;
  }

  /** The position of a key in `numeric_fields`, and -1 for the other keys. */
  function FieldPosition(k: MetaKey): int {
    match k
    case AvgRentPerSqm => 0
    case GreenIndexKey => 1
    case SocietyWelfareIndexKey => 2
    case YasamKalitesi => 3
    case Yurunebilirlik => 4
    case KulturelAktivite => 5
    case NufusKey => 6
    case RestaurantKey => 7
    case LibraryKey => 8
    case SchoolKey => 9
    case ParkKey => 10
    case CafeKey => 11
    case PharmacyKey => 12
    case HospitalKey => 13
    case _ => -1
  }

  /** Keys `create_metadata` never writes. */
  const ExcludedKeys: set<MetaKey> :=
    {CanKaybiSayisiKey, BusStationKey, TrainStationKey, TransitStationKey, TotalStationsKey}

  /** In particular the index metadata never holds earthquake or station figures, and every
      value besides the coordinates is a number. */
  lemma MetadataLacksQuakeAndStations(r: Row)
    ensures var m := MetadataOf(r).values;
      && (forall k :: k in ExcludedKeys ==> k !in m)
      && forall k :: k in m && k != Latitude && k != Longitude ==> m[k].Real?
  {
    MetadataContents(r);
    NumericFieldsKeys();
    var m := MetadataOf(r).values;
    forall k | k in m && k != Latitude && k != Longitude ensures k !in ExcludedKeys && m[k].Real? {
      var i :| 0 <= i < |NumericFields| && NumericFields[i].0 == k;
    }
  }
}
