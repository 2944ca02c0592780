/**
 * What `explain_match` in main.py makes of the metadata the index stores. The index keeps
 * the metadata `create_metadata` built (utils/vector_db_creation.py), which holds neither
 * `can_kaybi_sayisi` nor `total_stations`, and `explain_match` reads both with a default
 * of 0.
 */
module IndexReads {
  import opened DataModel
  import opened Prefs
  import opened Retrieval
  import opened IndexText

  /** With an earthquake concern, every neighborhood served from the index is called
      excellent on earthquake safety, whatever its casualty figure in the table. */
  lemma IndexedQuakeReasons(row: Row, p: Preferences)
    ensures QuakeReasons(MetadataOf(row), p) == (if QuakeConcern(p) then [ExcellentQuakeSafety] else [])
  {
    MetadataLacksQuakeAndStations(row);
    assert CanKaybiSayisiKey in ExcludedKeys;
  }

  /** A transport reason is given to a neighborhood served from the index only for a
      negative station threshold, and then with a total of 0, whatever the table holds. */
  lemma IndexedTransportReasons(row: Row, p: Preferences)
    ensures TransportReasons(MetadataOf(row), p) ==
      (if Truthy(p.minTotalStations) && p.minTotalStations.value < 0.0 then [GoodTransport(0)] else [])
  {
    MetadataLacksQuakeAndStations(row);
    assert TotalStationsKey in ExcludedKeys;
  }
}
