/**
 * The module state of client/src/main.ts that the placement tools change:
 * the money, the selected road piece and quarter-turn index, the three
 * occupancy maps, the last placement error and the two money popups.
 * Rendering, the HUD text, ground plates and the raycast that picks the
 * object under the pointer are left out; the picked object is the
 * parameter of `EraseAtPointer`, the loaded prefabs are the parameter
 * `loaded`, and `performance.now()` is the parameter `now`.
 */
module MainTs {
  import opened Wrappers
  import opened Constants
  import opened TileKeys
  import opened JsMap
  import opened Placement
  import opened Economy
  import opened MoneyPopups

  class Client {
    var money: int
    var piece: Piece
    var angleIndex: int
    var roads: Bag
    var houses: Bag
    var buildings: Bag
    var lastPlaceError: string
    var refundAggregate: Option<Agg>
    var spendAggregate: Option<Agg>

    function Occ(): Maps
      reads this
    {
      Maps(roads, houses, buildings)
    }

    /** Money never negative, the angle index in 0..3, the maps valid and disjoint. */
    ghost predicate Valid()
      reads this
    {
      money >= 0 && 0 <= angleIndex < 4 && Occ().Valid()
    }

    /** Module initialisation. */
    constructor ()
      ensures Valid()
      ensures money == START_MONEY && piece == I && angleIndex == 0 && lastPlaceError == ""
      ensures Occ() == NoMaps() && refundAggregate.None? && spendAggregate.None?
    {
      money := START_MONEY;
      piece, angleIndex := I, 0;
      roads, houses, buildings := Empty(), Empty(), Empty();
      lastPlaceError := "";
      refundAggregate, spendAggregate := None, None;
    }

    /** `cyclePiece()`. */
    method CyclePiece()
      modifies this`piece
      ensures piece == NextPiece(old(piece))
    {
      piece := if piece == I then L else if piece == L then X else I;
    }

    /** The `A` key: `angleIndex = (angleIndex + 1) & 3`. */
    method RotateAngle()
      requires Valid()
      modifies this`angleIndex
      ensures Valid() && angleIndex == NextAngle(old(angleIndex))
    {
      angleIndex := (angleIndex + 1) % 4;
    }

    /** Stores `obj` under `id` in the map of `kind`. */
    method Store(kind: Kind, id: Key, obj: Placed)
      requires Occ().Valid()
      modifies this`roads, this`houses, this`buildings
      ensures Occ() == AfterPlace(old(Occ()), kind, id, obj)
    {
      match kind {
        case RoadKind => roads := roads.Set(id, obj);
        case HouseKind => houses := houses.Set(id, obj);
        case BuildingKind => buildings := buildings.Set(id, obj);
      }
    }

    /**
     * The checks of `placeRoad`, `placeHouse` and `placeBuilding`, in their
     * order: money, a free key, (houses and buildings) a neighbouring road,
     * the prefab; the first that fails names the error.
     */
    method Vet(kind: Kind, wx: int, wz: int, loaded: set<ModelKey>) returns (o: Outcome)
      requires Valid()
      ensures o == PlaceOutcome(money, Occ(), kind, wx, wz, piece, angleIndex, loaded)
    {
      var cost := Cost(kind);
      if money < cost {
        return Refused("money");
      }
      var id := KeyAt(wx, wz);
      if roads.Has(id) || houses.Has(id) || buildings.Has(id) {
        return Refused("occupied");
      }
      if kind != RoadKind && !HasAdjacentRoadAt(roads, wx, wz) {
        return Refused("no_road");
      }
      var obj := BuildAt(kind, piece, angleIndex, loaded, wx, wz);
      if obj.None? {
        return Refused("model");
      }
      return Accepted(id, obj.value);
    }

    /**
     * `placeRoad`, `placeHouse` and `placeBuilding` at the snapped point
     * (`wx`, `wz`): refused with the first failing check's error, which
     * changes nothing but `lastPlaceError`; accepted, the object is stored,
     * its cost taken from the money and shown as a spend.
     */
    method Place(kind: Kind, wx: int, wz: int, now: real, loaded: set<ModelKey>) returns (ok: bool)
      requires Valid()
      modifies this
      ensures Valid()
      ensures piece == old(piece) && angleIndex == old(angleIndex) && refundAggregate == old(refundAggregate)
      ensures var o := PlaceOutcome(old(money), old(Occ()), kind, wx, wz, piece, angleIndex, loaded);
        ok == o.Accepted?
        && (o.Refused? ==>
              lastPlaceError == o.err && money == old(money) && Occ() == old(Occ())
              && spendAggregate == old(spendAggregate))
        && (o.Accepted? ==>
              lastPlaceError == "" && money == old(money) - Cost(kind)
              && Occ() == AfterPlace(old(Occ()), kind, o.key, o.obj)
              && spendAggregate == Show(old(spendAggregate), Cost(kind), now))
    {
      var o := Vet(kind, wx, wz, loaded);
      if o.Refused? {
        lastPlaceError := o.err;
        return false;
      }
      PlaceKeepsValid(money, Occ(), kind, wx, wz, piece, angleIndex, loaded);
      Commit(kind, o.key, o.obj, now);
      ok := true;
    }

    /** The accepted tail of the place functions: store, pay, show the spend, clear the error. */
    method Commit(kind: Kind, id: Key, obj: Placed, now: real)
      requires Occ().Valid()
      modifies this
      ensures Occ() == AfterPlace(old(Occ()), kind, id, obj)
      ensures money == old(money) - Cost(kind) && lastPlaceError == ""
      ensures spendAggregate == Show(old(spendAggregate), Cost(kind), now)
      ensures piece == old(piece) && angleIndex == old(angleIndex) && refundAggregate == old(refundAggregate)
    {
      Store(kind, id, obj);
      money := money - Cost(kind);
      spendAggregate := Show(spendAggregate, Cost(kind), now);
      lastPlaceError := "";
    }

    /** The three entry-search loops: roads first, then houses, then buildings. */
    method Locate(root: Placed) returns (hit: Option<Hit>)
      requires Occ().Valid()
      ensures hit == LocateRoot(Occ(), root)
    {
      var hitKey := SearchEntries(roads, root);
      if hitKey.Some? {
        return Some(Hit(RoadKind, hitKey.value));
      }
      hitKey := SearchEntries(houses, root);
      if hitKey.Some? {
        return Some(Hit(HouseKind, hitKey.value));
      }
      hitKey := SearchEntries(buildings, root);
      if hitKey.Some? {
        return Some(Hit(BuildingKind, hitKey.value));
      }
      return None;
    }

    /** Deletes the key of `h` from its map. */
    method Remove(h: Hit)
      requires Occ().Valid() && Occ().Get(h.kind).Has(h.key)
      modifies this`roads, this`houses, this`buildings
      ensures Occ() == AfterErase(old(Occ()), h) && Occ().Valid()
    {
      EraseKeepsValid(Occ(), h);
      match h.kind {
        case RoadKind => roads := roads.Delete(h.key);
        case HouseKind => houses := houses.Delete(h.key);
        case BuildingKind => buildings := buildings.Delete(h.key);
      }
    }

    /**
     * The tail of `eraseAtPointer(event)` once the pointer has picked
     * `root`: find its key, roads first, then houses, then buildings; if
     * found, delete it, add the main.ts refund to the money and show it when
     * positive.
     */
    method EraseAtPointer(root: Placed, now: real)
      requires Valid()
      modifies this
      ensures Valid()
      ensures piece == old(piece) && angleIndex == old(angleIndex)
      ensures lastPlaceError == old(lastPlaceError) && spendAggregate == old(spendAggregate)
      ensures LocateRoot(old(Occ()), root).None? ==>
        money == old(money) && Occ() == old(Occ()) && refundAggregate == old(refundAggregate)
      ensures LocateRoot(old(Occ()), root).Some? ==>
        Occ() == AfterErase(old(Occ()), LocateRoot(old(Occ()), root).value)
        && money == old(money) + RefundTs(root.data)
        && refundAggregate == (if RefundTs(root.data) > 0 then Show(old(refundAggregate), RefundTs(root.data), now)
                               else old(refundAggregate))
    {
      var hit := Locate(root);
      if hit.None? {
        return;
      }
      LocatedCost(Occ(), root);
      RefundTsBounds(root.data);
      var refund := Refund(root.data);
      DeleteAndRefund(hit.value, refund, now);
    }

    /** `map.delete(hitKey)` on the hit's map, then `addMoney(refund)` and its popup. */
    method DeleteAndRefund(h: Hit, refund: int, now: real)
      requires Occ().Valid() && Occ().Get(h.kind).Has(h.key)
      modifies this`roads, this`houses, this`buildings, this`money, this`refundAggregate
      ensures Occ() == AfterErase(old(Occ()), h) && Occ().Valid()
      ensures money == old(money) + refund
      ensures refundAggregate == if refund > 0 then Show(old(refundAggregate), refund, now) else old(refundAggregate)
    {
      Remove(h);
      Credit(refund, now);
    }

    /** The refund of main.ts: the full cost of a road, half the cost of a house or building. */
    method Refund(data: UserData) returns (refund: int)
      ensures refund == RefundTs(data)
    {
      var full := data.cost;
      refund := full;
      if data.kind == HOUSE_KIND || data.kind == BUILDING_KIND {
        refund := JsRound(full as real * 0.5);
      }
      RefundIsRounded(data);
    }

    /** `addMoney(refund)`, and the refund popup when the refund is positive. */
    method Credit(refund: int, now: real)
      modifies this`money, this`refundAggregate
      ensures money == old(money) + refund
      ensures refundAggregate == if refund > 0 then Show(old(refundAggregate), refund, now) else old(refundAggregate)
    {
      money := money + refund;
      if refund > 0 {
        refundAggregate := Show(refundAggregate, refund, now);
      }
    }
  }
}
