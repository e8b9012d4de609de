/**
 * The building catalog of client/src/catalog.ts: `init_map` walks the
 * listed records in order and sets each under its `id`, so the map's keys
 * are exactly the listed ids and a later record would replace an earlier
 * one with the same id. The `stats` of each record are left out.
 */
module Catalog {
  import opened Wrappers
  import opened JsMap

  /**
   * The `BuildingClass` enumeration. It has no `Roads` and no `Industrial`
   * member, so the records that name those read `undefined`: None here.
   */
  datatype BuildingClass = Residential | Commercial | Industry | Entertainment | Services

  /** A catalog record: `id`, `name`, `class` and `cost`. */
  datatype BuildingType = BuildingType(id: string, name: string, cls: Option<BuildingClass>, cost: int)

  /** The `all_buildings` list, in its order. */
  const ALL_LISTED: seq<BuildingType> := [
    BuildingType("road_straight", "Road (Straight)", None, 100),
    BuildingType("road_corner", "Road (Corner)", None, 100),
    BuildingType("road_four_way", "Road (4-way)", None, 100),
    BuildingType("road_three_way", "Road (3-way)", None, 100),
    BuildingType("house", "House", Some(Residential), 500),
    BuildingType("apartments", "Apartments", Some(Residential), 1200),
    BuildingType("skyscrapper_residential", "Skyscrapper (Residential)", Some(Residential), 20000),
    BuildingType("grocery_store", "Grocery Store", Some(Commercial), 900),
    BuildingType("bar", "Bar", Some(Commercial), 1800),
    BuildingType("restaurant", "Restaurant", Some(Commercial), 1600),
    BuildingType("city_market", "City Market", Some(Commercial), 1200),
    BuildingType("offices", "Offices", Some(Commercial), 2000),
    BuildingType("skyscrapper_offices", "Skyscrapper (Offices)", Some(Commercial), 25000),
    BuildingType("farm", "Farm", None, 2000),
    BuildingType("field", "Field", None, 400),
    BuildingType("sawmill", "Sawmill", None, 6000),
    BuildingType("factory", "Factory", None, 8000),
    BuildingType("gazebo", "Gazebo", Some(Entertainment), 300),
    BuildingType("fountain", "Fountain", Some(Entertainment), 400),
    BuildingType("plaza", "Plaza", Some(Entertainment), 600),
    BuildingType("hotel", "Hotel", Some(Entertainment), 3000),
    BuildingType("wind_turbine", "Wind Turbine", Some(Services), 800),
    BuildingType("solar_farm", "Solar Farm", Some(Services), 2400),
    BuildingType("water_well", "Water Well", Some(Services), 1000)
  ]

  type Catalog = OMap<string, BuildingType>

  /** The map after `map.set(b.id, b)` for each of `bs` in turn, from an empty map. */
  function Fill(bs: seq<BuildingType>): (m: Catalog)
    ensures m.Valid()
  {
    if bs == [] then Empty()
    else
      var b := bs[|bs| - 1];
      Fill(bs[..|bs| - 1]).Set(b.id, b)
  }

  /** `init_map()`: the `forEach` over the listed records. */
  method InitMap(bs: seq<BuildingType>) returns (m: Catalog)
    ensures m == Fill(bs)
  {
    m := Empty();
    var i := 0;
    while i < |bs|
      invariant 0 <= i <= |bs|
      invariant m == Fill(bs[..i])
    {
      assert bs[..i + 1][..i] == bs[..i];
      m := m.Set(bs[i].id, bs[i]);
      i := i + 1;
    }
    assert bs[..|bs|] == bs;
  }

  /** The map's keys are exactly the ids of the listed records. */
  lemma {:induction false} KeysAreListedIds(bs: seq<BuildingType>)
    ensures forall k :: Fill(bs).Has(k) <==> exists i :: 0 <= i < |bs| && bs[i].id == k
  {
    if bs != [] {
      var init := bs[..|bs| - 1];
      var last := bs[|bs| - 1];
      KeysAreListedIds(init);
      assert Fill(bs).entries == Fill(init).entries[last.id := last];
      forall k ensures Fill(bs).Has(k) <==> exists i :: 0 <= i < |bs| && bs[i].id == k {
        if Fill(bs).Has(k) {
          if k == last.id {
            assert bs[|bs| - 1].id == k;
          } else {
            assert Fill(init).Has(k);
            var i :| 0 <= i < |init| && init[i].id == k;
            assert bs[i].id == k;
          }
        }
        if exists i :: 0 <= i < |bs| && bs[i].id == k {
          var i :| 0 <= i < |bs| && bs[i].id == k;
          if i < |bs| - 1 {
            assert init[i].id == k;
            assert Fill(init).Has(k);
          }
        }
      }
    }
  }

  /**
   * Each listed id maps to the last record listed with that id; in
   * particular every stored record is stored under its own id.
   */
  lemma {:induction false} LastRecordWins(bs: seq<BuildingType>, i: int)
    requires 0 <= i < |bs|
    requires forall j :: i < j < |bs| ==> bs[j].id != bs[i].id
    ensures Fill(bs).Has(bs[i].id) && Fill(bs).entries[bs[i].id] == bs[i]
  {
    var init := bs[..|bs| - 1];
    if i < |bs| - 1 {
      forall j | i < j < |init| ensures init[j].id != init[i].id {
        assert init[j] == bs[j] && init[i] == bs[i];
      }
      LastRecordWins(init, i);
      assert init[i] == bs[i];
    }
  }

  lemma {:induction false} StoredUnderOwnId(bs: seq<BuildingType>)
    ensures forall k :: Fill(bs).Has(k) ==> Fill(bs).entries[k].id == k
  {
    if bs != [] {
      StoredUnderOwnId(bs[..|bs| - 1]);
    }
  }

  /** `ALL_BUILDINGS`, the catalog `init_map()` builds from the listed records. */
  const ALL_BUILDINGS: Catalog := Fill(ALL_LISTED)

  /**
   * Every listed record's id is a key of `ALL_BUILDINGS`, every key is a
   * listed id, and each key maps to a record carrying that id.
   */
  lemma AllBuildingsKeyedById()
    ensures forall i :: 0 <= i < |ALL_LISTED| ==> ALL_BUILDINGS.Has(ALL_LISTED[i].id)
    ensures forall k :: ALL_BUILDINGS.Has(k) ==> exists i :: 0 <= i < |ALL_LISTED| && ALL_LISTED[i].id == k
    ensures forall k :: ALL_BUILDINGS.Has(k) ==> ALL_BUILDINGS.entries[k].id == k
  {
    KeysAreListedIds(ALL_LISTED);
    StoredUnderOwnId(ALL_LISTED);
  }

  /** No two listed records share an id. */
  ghost predicate DistinctIds(bs: seq<BuildingType>) {
    forall i, j :: 0 <= i < j < |bs| ==> bs[i].id != bs[j].id
  }

  /** With distinct ids the map holds every record, one entry each, in the listed order. */
  lemma {:induction false} DistinctIdsFillInOrder(bs: seq<BuildingType>)
    requires DistinctIds(bs)
    ensures Fill(bs).Size() == |bs|
    ensures forall i :: 0 <= i < |bs| ==> Fill(bs).order[i] == bs[i].id
  {
    if bs != [] {
      var init := bs[..|bs| - 1];
      assert DistinctIds(init) by {
        forall i, j | 0 <= i < j < |init| ensures init[i].id != init[j].id {
          assert init[i] == bs[i] && init[j] == bs[j];
        }
      }
      DistinctIdsFillInOrder(init);
      KeysAreListedIds(init);
      var last := bs[|bs| - 1];
      assert !Fill(init).Has(last.id);
    }
  }
}
