/**
 * The module state of client/src/main.js that the placement tools change:
 * the same money, piece, quarter-turn index, three maps and last
 * placement error as main.ts, with no money popups, and an erase that
 * refunds the full recorded cost. The picked object, the loaded prefabs
 * and the snapped pointer position are parameters.
 */
module MainJs {
  import opened Wrappers
  import opened Constants
  import opened TileKeys
  import opened JsMap
  import opened Placement
  import opened Economy

  class Client {
    var money: int
    var piece: Piece
    var angleIndex: int
    var roads: Bag
    var houses: Bag
    var buildings: Bag
    var lastPlaceError: string

    function Occ(): Maps
      reads this
    {
      Maps(roads, houses, buildings)
    }

    /** Money never negative, the angle index in 0..3, the maps valid and disjoint. */
    ghost predicate Valid()
      reads this
    {
      money >= 0 && 0 <= angleIndex < 4 && Occ().Valid()
    }

    /** Module initialisation. */
    constructor ()
      ensures Valid()
      ensures money == START_MONEY && piece == I && angleIndex == 0 && lastPlaceError == ""
      ensures Occ() == NoMaps()
    {
      money := START_MONEY;
      piece, angleIndex := I, 0;
      roads, houses, buildings := Empty(), Empty(), Empty();
      lastPlaceError := "";
    }

    /** `cyclePiece()`. */
    method CyclePiece()
      modifies this`piece
      ensures piece == NextPiece(old(piece))
    {
      piece := if piece == I then L else if piece == L then X else I;
    }

    /** The `A` key: `angleIndex = (angleIndex + 1) & 3`. */
    method RotateAngle()
      requires Valid()
      modifies this`angleIndex
      ensures Valid() && angleIndex == NextAngle(old(angleIndex))
    {
      angleIndex := (angleIndex + 1) % 4;
    }

    /** Stores `obj` under `id` in the map of `kind`. */
    method Store(kind: Kind, id: Key, obj: Placed)
      requires Occ().Valid()
      modifies this`roads, this`houses, this`buildings
      ensures Occ() == AfterPlace(old(Occ()), kind, id, obj)
    {
      match kind {
        case RoadKind => roads := roads.Set(id, obj);
        case HouseKind => houses := houses.Set(id, obj);
        case BuildingKind => buildings := buildings.Set(id, obj);
      }
    }

    /**
     * The checks of `placeRoad`, `placeHouse` and `placeBuilding`, in their
     * order: money, a free key, (houses and buildings) a neighbouring road,
     * the prefab; the first that fails names the error.
     */
    method Vet(kind: Kind, wx: int, wz: int, loaded: set<ModelKey>) returns (o: Outcome)
      requires Valid()
      ensures o == PlaceOutcome(money, Occ(), kind, wx, wz, piece, angleIndex, loaded)
    {
      var cost := Cost(kind);
      if money < cost {
        return Refused("money");
      }
      var id := KeyAt(wx, wz);
      if roads.Has(id) || houses.Has(id) || buildings.Has(id) {
        return Refused("occupied");
      }
      if kind != RoadKind && !HasAdjacentRoadAt(roads, wx, wz) {
        return Refused("no_road");
      }
      var obj := BuildAt(kind, piece, angleIndex, loaded, wx, wz);
      if obj.None? {
        return Refused("model");
      }
      return Accepted(id, obj.value);
    }

    /**
     * `placeRoad`, `placeHouse` and `placeBuilding` at the snapped point
     * (`wx`, `wz`): refused with the first failing check's error, which
     * changes nothing but `lastPlaceError`; accepted, the object is stored
     * and its cost taken from the money.
     */
    method Place(kind: Kind, wx: int, wz: int, loaded: set<ModelKey>) returns (ok: bool)
      requires Valid()
      modifies this
      ensures Valid()
      ensures piece == old(piece) && angleIndex == old(angleIndex)
      ensures var o := PlaceOutcome(old(money), old(Occ()), kind, wx, wz, piece, angleIndex, loaded);
        ok == o.Accepted?
        && (o.Refused? ==> lastPlaceError == o.err && money == old(money) && Occ() == old(Occ()))
        && (o.Accepted? ==>
              lastPlaceError == "" && money == old(money) - Cost(kind)
              && Occ() == AfterPlace(old(Occ()), kind, o.key, o.obj))
    {
      var o := Vet(kind, wx, wz, loaded);
      if o.Refused? {
        lastPlaceError := o.err;
        return false;
      }
      PlaceKeepsValid(money, Occ(), kind, wx, wz, piece, angleIndex, loaded);
      Commit(kind, o.key, o.obj);
      ok := true;
    }

    /** The accepted tail of the place functions: store, pay, clear the error. */
    method Commit(kind: Kind, id: Key, obj: Placed)
      requires Occ().Valid()
      modifies this`roads, this`houses, this`buildings, this`money, this`lastPlaceError
      ensures Occ() == AfterPlace(old(Occ()), kind, id, obj)
      ensures money == old(money) - Cost(kind) && lastPlaceError == ""
    {
      Store(kind, id, obj);
      money := money - Cost(kind);
      lastPlaceError := "";
    }

    /** The three entry-search loops: roads first, then houses, then buildings. */
    method Locate(root: Placed) returns (hit: Option<Hit>)
      requires Occ().Valid()
      ensures hit == LocateRoot(Occ(), root)
    {
      var hitKey := SearchEntries(roads, root);
      if hitKey.Some? {
        return Some(Hit(RoadKind, hitKey.value));
      }
      hitKey := SearchEntries(houses, root);
      if hitKey.Some? {
        return Some(Hit(HouseKind, hitKey.value));
      }
      hitKey := SearchEntries(buildings, root);
      if hitKey.Some? {
        return Some(Hit(BuildingKind, hitKey.value));
      }
      return None;
    }

    /** Deletes the key of `h` from its map. */
    method Remove(h: Hit)
      requires Occ().Valid() && Occ().Get(h.kind).Has(h.key)
      modifies this`roads, this`houses, this`buildings
      ensures Occ() == AfterErase(old(Occ()), h) && Occ().Valid()
    {
      EraseKeepsValid(Occ(), h);
      match h.kind {
        case RoadKind => roads := roads.Delete(h.key);
        case HouseKind => houses := houses.Delete(h.key);
        case BuildingKind => buildings := buildings.Delete(h.key);
      }
    }

    /**
     * The tail of `eraseAtPointer(event)` once the pointer has picked
     * `root`: find its key, roads first, then houses, then buildings; if
     * found, delete it and give back its whole recorded cost.
     */
    method EraseAtPointer(root: Placed)
      requires Valid()
      modifies this
      ensures Valid()
      ensures piece == old(piece) && angleIndex == old(angleIndex) && lastPlaceError == old(lastPlaceError)
      ensures LocateRoot(old(Occ()), root).None? ==> money == old(money) && Occ() == old(Occ())
      ensures LocateRoot(old(Occ()), root).Some? ==>
        Occ() == AfterErase(old(Occ()), LocateRoot(old(Occ()), root).value)
        && money == old(money) + root.data.cost
    {
      var hit := Locate(root);
      if hit.None? {
        return;
      }
      LocatedCost(Occ(), root);
      DeleteAndRefund(hit.value, root.data.cost);
    }

    /** `map.delete(hitKey)` on the hit's map, then `addMoney(refund)`. */
    method DeleteAndRefund(h: Hit, refund: int)
      requires Occ().Valid() && Occ().Get(h.kind).Has(h.key)
      modifies this`roads, this`houses, this`buildings, this`money
      ensures Occ() == AfterErase(old(Occ()), h) && Occ().Valid()
      ensures money == old(money) + refund
    {
      Remove(h);
      money := money + refund;
    }
  }

  /**
   * In main.js a placement followed by the erase of what it placed leaves
   * the money and the maps exactly as they were.
   */
  lemma {:induction false} RoundTripRestores(money: int, m: Maps, kind: Kind, wx: int, wz: int,
                                             piece: Piece, angle: int, loaded: set<ModelKey>)
    requires m.Valid() && 0 <= angle < 4
    requires PlaceOutcome(money, m, kind, wx, wz, piece, angle, loaded).Accepted?
    ensures var o := PlaceOutcome(money, m, kind, wx, wz, piece, angle, loaded);
      var m' := AfterPlace(m, kind, o.key, o.obj);
      m'.Valid()
      && LocateRoot(m', o.obj) == Some(Hit(kind, o.key))
      && AfterErase(m', Hit(kind, o.key)) == m
      && (money - Cost(kind)) + o.obj.data.cost == money
  {
    PlaceThenErase(money, m, kind, wx, wz, piece, angle, loaded);
  }
}
