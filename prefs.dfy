/** The preference record the language model extracts from a query. */
module Prefs {
  import opened Wrappers

  /** Every field is optional: a JSON `null` and a missing key are both `None`. */
  datatype Preferences = Preferences(
    monthlyBudget: Option<real>,
    apartmentSizeSqm: Option<real>,
    minParks: Option<real>,
    minSchools: Option<real>,
    minRestaurants: Option<real>,
    minCafes: Option<real>,
    minGreenIndex: Option<real>,
    maxPopulation: Option<real>,
    minTotalStations: Option<real>,
    maxCasualties: Option<real>,
    maxSeverelyDamaged: Option<real>,
    maxHeavilyDamaged: Option<real>,
    earthquakeSafe: Option<bool>,
    preferencesText: Option<string>)

  /** `_get_empty_preferences()`: every field `None`. */
  function Empty(): Preferences {
    Preferences(None, None, None, None, None, None, None, None, None, None, None, None, None, None)
  }

  /** Python truthiness of an optional number: present and non-zero. */
  predicate Truthy(x: Option<real>) {
    x.Some? && x.value != 0.0
  }

  /** Python truthiness of an optional flag. */
  predicate FlagTruthy(x: Option<bool>) {
    x == Some(true)
  }

  /** The apartment size used for rent: `preferences.get('apartment_size_sqm') or 80`. */
  const DefaultSize: real := 80.0

  function EffectiveSize(p: Preferences): (s: real)
    ensures Truthy(p.apartmentSizeSqm) ==> s == p.apartmentSizeSqm.value
    ensures !Truthy(p.apartmentSizeSqm) ==> s == DefaultSize
  {
    if Truthy(p.apartmentSizeSqm) then p.apartmentSizeSqm.value else DefaultSize
  }

  /** The text the index is queried with: `preferences.get('preferences_text') or "good neighborhood"`. */
  const GenericQuery: string := "good neighborhood"

  function QueryText(p: Preferences): (t: string)
    ensures t != []
    ensures p.preferencesText.Some? && p.preferencesText.value != [] ==> t == p.preferencesText.value
    ensures p.preferencesText.None? || p.preferencesText.value == [] ==> t == GenericQuery
  {
    if p.preferencesText.Some? && p.preferencesText.value != [] then p.preferencesText.value else GenericQuery
  }
}
