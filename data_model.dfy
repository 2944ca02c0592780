/**
 * The neighborhood table and the metadata records stored in the vector index.
 * A pandas float is a `Num`: a real number or NaN. A row's numeric columns are a map;
 * a column the row has no number for (NaN in the CSV) is simply not a key.
 */
module DataModel {
  import opened Wrappers
  import opened Text

  /** A Python float that may be NaN. */
  datatype Num = NaN | Real(v: real)

  /** `x >= t` in Python: false when `x` is NaN. */
  predicate AtLeast(x: Num, t: real) {
    x.Real? && x.v >= t
  }

  /** `x <= t` in Python: false when `x` is NaN. */
  predicate AtMost(x: Num, t: real) {
    x.Real? && x.v <= t
  }

  /** `bool(x)`: NaN is truthy, zero is not. */
  predicate NumTruthy(x: Num) {
    x.NaN? || x.v != 0.0
  }

  /** `x * k`; NaN stays NaN. */
  function Scale(x: Num, k: real): (r: Num)
    ensures r.Real? <==> x.Real?
    ensures x.Real? ==> r.v == x.v * k
  {
    match x
    case NaN => NaN
    case Real(v) => Real(v * k)
  }

  /** `a - x`; NaN stays NaN. */
  function Minus(a: real, x: Num): (r: Num)
    ensures r.Real? <==> x.Real?
    ensures x.Real? ==> r.v + x.v == a
  {
    match x
    case NaN => NaN
    case Real(v) => Real(a - v)
  }

  /** `fillna(0)` of one cell. */
  function FillZero(x: Num): real {
    match x
    case NaN => 0.0
    case Real(v) => v
  }

  /** `int(x)` of a finite float: truncation toward zero. */
  function Trunc(x: real): (i: int)
    ensures x >= 0.0 ==> 0 <= i && i as real <= x < i as real + 1.0
    ensures x < 0.0 ==> i <= 0 && i as real - 1.0 < x <= i as real
  {
    if x >= 0.0 then x.Floor else -((-x).Floor)
  }

  /** The numeric CSV columns the core reads. */
  datatype Column =
    | AvgRentPerSqM | GreenIndex | SocietyWelfareIndex
    | IndexYasamKalitesi | IndexYurunebilirlik | KulturelAktiviteIndex
    | Nufus
    | Restaurant | Library | School | Park | Atm | Cafe | Pharmacy | Hospital | Mosque
    | BusStation | TrainStation | TransitStation | TotalStations
    | Enlem | Boylam
    | Before1980 | From1980To2000 | After2000
    | CanKaybiSayisi | CokAgirHasarliBinaSayisi | AgirHasarliBinaSayisi

  /** One neighborhood: the `Mahalle` and `İlçe` names, the optional `Description` and
      `Mahalle_ID`, and the numeric columns. */
  datatype Row = Row(
    mahalle: string,
    ilce: string,
    description: Option<string>,
    mahalleId: Option<string>,
    nums: map<Column, real>)

  /** `row[c]`: NaN when the row has no number in column `c`. */
  function Get(r: Row, c: Column): (x: Num)
    ensures x.Real? <==> c in r.nums
    ensures x.Real? ==> x.v == r.nums[c]
  {
    if c in r.nums then Real(r.nums[c]) else NaN
  }

  /** The keys of a metadata dictionary besides `mahalle` and `ilce`. */
  datatype MetaKey =
    | Latitude | Longitude
    | AvgRentPerSqm | GreenIndexKey | SocietyWelfareIndexKey
    | YasamKalitesi | Yurunebilirlik | KulturelAktivite
    | NufusKey
    | RestaurantKey | LibraryKey | SchoolKey | ParkKey | CafeKey | PharmacyKey | HospitalKey
    | BusStationKey | TrainStationKey | TransitStationKey | TotalStationsKey
    | CanKaybiSayisiKey

  /** A metadata dictionary: the two names and the numeric entries that are present. */
  datatype Metadata = Metadata(mahalle: string, ilce: string, values: map<MetaKey, Num>)

  /** `meta.get(k, default)`. */
  function Lookup(m: Metadata, k: MetaKey, default: real): (x: Num)
    ensures k in m.values ==> x == m.values[k]
    ensures k !in m.values ==> x == Real(default)
  {
    if k in m.values then m.values[k] else Real(default)
  }

  /** The identifier `f"{ilce}_{mahalle}"` with every space turned into `_`. */
  function BaseId(ilce: string, mahalle: string): (id: string)
    ensures |id| == |ilce| + 1 + |mahalle|
    ensures ' ' !in id
    ensures id[|ilce|] == '_'
    ensures id == ReplaceChar(ilce + "_" + mahalle, ' ', '_')
  {
    var r := ReplaceChar(ilce + "_" + mahalle, ' ', '_');
    assert forall i :: 0 <= i < |r| ==> r[i] != ' ';
    r
  }
}
