// The service workflow (lib/service-store.ts): an ordered list of services, each
// linked to at most one warehouse item. A link implicitly reserves one unit of that
// item's stock, so creating, relinking and deleting a service move stock in the ledger.

module ServiceStore {
  import opened Types
  import opened Seqs
  import opened WarehouseStore

  function ServiceIds(services: seq<Service>): seq<string> {
    seq(|services|, i requires 0 <= i < |services| => services[i].id)
  }

  /** No two services share an id (every id comes from a fresh `generateId`). */
  predicate UniqueServiceIds(services: seq<Service>) {
    forall i, j :: 0 <= i < j < |services| ==> services[i].id != services[j].id
  }

  /** `getUserServices`: the services assigned to `email`, in stored order. */
  function UserServices(services: seq<Service>, email: string): (r: seq<Service>)
    ensures forall i :: 0 <= i < |r| ==> r[i] in services && r[i].assignedUser == email
    ensures forall i :: 0 <= i < |services| && services[i].assignedUser == email ==> services[i] in r
  {
    FilterMembers(services, (s: Service) => s.assignedUser == email);
    Filter(services, (s: Service) => s.assignedUser == email)
  }

  /** `canEditService`: admins may edit every service, anyone else only their own. */
  function CanEdit(email: string, role: string, service: Service): (r: bool)
    ensures role == "admin" ==> r
    ensures forall services :: service in services ==>
              (r <==> role == "admin" || service in UserServices(services, email))
  {
    role == "admin" || service.assignedUser == email
  }

  /** Does `s` hold a reservation on the item `itemId`? Only a truthy link reserves. */
  predicate LinkedTo(s: Service, itemId: string) {
    Truthy(s.warehouseItemId) && s.warehouseItemId.value == itemId
  }

  /** How many units of `itemId` the services reserve. */
  function LinkedCount(services: seq<Service>, itemId: string): nat {
    |Filter(services, (s: Service) => LinkedTo(s, itemId))|
  }

  /** Return the unit reserved through `link`, as `updateStock(link, 1)` does. */
  function Released(items: seq<WarehouseItem>, link: Option<string>, now: string): (r: seq<WarehouseItem>)
    ensures |r| == |items|
    ensures forall j :: 0 <= j < |items| ==> r[j].id == items[j].id && items[j].stock <= r[j].stock <= items[j].stock + 1
    ensures !Truthy(link) ==> r == items
  {
    if Truthy(link) then StockUpdated(items, link.value, 1, now) else items
  }

  /** Take one unit for `link`, as `updateStock(link, -1)` does. */
  function Reserved(items: seq<WarehouseItem>, link: Option<string>, now: string): (r: seq<WarehouseItem>)
    ensures |r| == |items|
    ensures forall j :: 0 <= j < |items| ==> r[j].id == items[j].id && items[j].stock - 1 <= r[j].stock <= items[j].stock
    ensures !Truthy(link) ==> r == items
  {
    if Truthy(link) then StockUpdated(items, link.value, -1, now) else items
  }

  /** `updateService`'s merge: supplied fields overwrite (an empty link included). */
  function PatchedService(s: Service, patch: ServicePatch, now: string): (r: Service)
    ensures r.id == s.id && r.status == s.status && r.createdAt == s.createdAt && r.updatedAt == now
    ensures patch.warehouseItemId.Some? ==> r.warehouseItemId == patch.warehouseItemId
    ensures patch == ServicePatch(None, None, None, None, None) ==> r == s.(updatedAt := now)
  {
    s.(code := patch.code.GetOr(s.code),
       name := patch.name.GetOr(s.name),
       price := patch.price.GetOr(s.price),
       assignedUser := patch.assignedUser.GetOr(s.assignedUser),
       warehouseItemId := if patch.warehouseItemId.Some? then patch.warehouseItemId else s.warehouseItemId,
       updatedAt := now)
  }

  /** The list `deleteService` writes back: every service whose id differs. */
  function WithoutService(services: seq<Service>, id: string): (r: seq<Service>)
    ensures forall i :: 0 <= i < |r| ==> r[i].id != id && r[i] in services
    ensures forall i :: 0 <= i < |services| && services[i].id != id ==> services[i] in r
  {
    FilterMembers(services, (s: Service) => s.id != id);
    Filter(services, (s: Service) => s.id != id)
  }

  /** Two ledgers that differ at most in the items' `updatedAt` timestamps. */
  predicate SameButTimestamps(a: seq<WarehouseItem>, b: seq<WarehouseItem>) {
    |a| == |b| && forall j :: 0 <= j < |a| ==> b[j] == a[j].(updatedAt := b[j].updatedAt)
  }

  /** Every item keeps its id, and its stock plus the units services reserve on it
      is the same before and after. */
  ghost predicate Conserved(items: seq<WarehouseItem>, services: seq<Service>,
                            items': seq<WarehouseItem>, services': seq<Service>)
  {
    && |items'| == |items|
    && forall j :: 0 <= j < |items| ==>
         && items'[j].id == items[j].id
         && items'[j].stock + LinkedCount(services', items[j].id) == items[j].stock + LinkedCount(services, items[j].id)
  }

  /** Selection keeps stored order: selecting from a concatenation concatenates the selections. */
  lemma {:induction false} UserServicesInOrder(a: seq<Service>, b: seq<Service>, email: string)
    ensures UserServices(a + b, email) == UserServices(a, email) + UserServices(b, email)
  {
    FilterAppend(a, b, (s: Service) => s.assignedUser == email);
  }

  /** Reservations counted in a list are those before, at and after any position. */
  lemma {:induction false} LinkedCountSplit(services: seq<Service>, k: int, itemId: string)
    requires 0 <= k < |services|
    ensures LinkedCount(services, itemId) ==
            LinkedCount(services[..k], itemId) + (if LinkedTo(services[k], itemId) then 1 else 0)
            + LinkedCount(services[k + 1..], itemId)
  {
    var p := (s: Service) => LinkedTo(s, itemId);
    assert services == services[..k] + ([services[k]] + services[k + 1..]);
    FilterAppend(services[..k], [services[k]] + services[k + 1..], p);
    FilterAppend([services[k]], services[k + 1..], p);
    assert [services[k]][1..] == [];
  }

  /** Appending a service adds its reservation, if any. */
  lemma {:induction false} LinkedCountAppend(services: seq<Service>, s: Service, itemId: string)
    ensures LinkedCount(services + [s], itemId) == LinkedCount(services, itemId) + (if LinkedTo(s, itemId) then 1 else 0)
  {
    LinkedCountSplit(services + [s], |services|, itemId);
    assert (services + [s])[..|services|] == services;
    assert (services + [s])[|services| + 1..] == [];
  }

  /** Replacing one service trades its reservation for the replacement's. */
  lemma {:induction false} LinkedCountReplace(services: seq<Service>, k: int, s: Service, itemId: string)
    requires 0 <= k < |services|
    ensures LinkedCount(services[k := s], itemId) ==
            LinkedCount(services, itemId) - (if LinkedTo(services[k], itemId) then 1 else 0)
            + (if LinkedTo(s, itemId) then 1 else 0)
  {
    LinkedCountSplit(services, k, itemId);
    LinkedCountSplit(services[k := s], k, itemId);
    assert services[k := s][..k] == services[..k];
    assert services[k := s][k + 1..] == services[k + 1..];
  }

  /** When no other service shares its id, `deleteService`'s filter removes exactly the one service. */
  lemma {:induction false} WithoutServiceRemovesOne(services: seq<Service>, k: int)
    requires 0 <= k < |services|
    requires forall i :: 0 <= i < |services| && i != k ==> services[i].id != services[k].id
    ensures WithoutService(services, services[k].id) == services[..k] + services[k + 1..]
  {
    FilterDropsOne(services, k, (s: Service) => s.id != services[k].id);
  }

  /** Removing the service at `k` drops its reservation. */
  lemma {:induction false} LinkedCountRemove(services: seq<Service>, k: int, itemId: string)
    requires 0 <= k < |services|
    ensures LinkedCount(services[..k] + services[k + 1..], itemId) ==
            LinkedCount(services, itemId) - (if LinkedTo(services[k], itemId) then 1 else 0)
  {
    LinkedCountSplit(services, k, itemId);
    FilterAppend(services[..k], services[k + 1..], (s: Service) => LinkedTo(s, itemId));
  }

  /** Supplying an empty link to `updateService` unlinks the service without returning
      its unit: the reservation count drops while no stock moves. */
  lemma {:induction false} EmptyLinkDropsReservation(services: seq<Service>, k: int, patch: ServicePatch, now: string)
    requires 0 <= k < |services| && Truthy(services[k].warehouseItemId)
    requires patch.warehouseItemId == Some("")
    ensures var itemId := services[k].warehouseItemId.value;
            LinkedCount(services[k := PatchedService(services[k], patch, now)], itemId) == LinkedCount(services, itemId) - 1
  {
    LinkedCountReplace(services, k, PatchedService(services[k], patch, now), services[k].warehouseItemId.value);
  }

  /** Returning a unit and taking it back again restores every stock, when no stock was
      negative: only timestamps move. This is `updateService`'s rollback. */
  lemma {:induction false} RollbackRestoresStock(items: seq<WarehouseItem>, link: Option<string>, now: string)
    requires UniqueIds(items) && NonNegative(items)
    ensures SameButTimestamps(items, Reserved(Released(items, link, now), link, now))
  {
    if Truthy(link) {
      var id := link.value;
      var mid := Released(items, link, now);
      if j :| 0 <= j < |items| && items[j].id == id {
        LookupUnique(items, j);
        StockUpdatedObserved(items, id, 1, now);
        LookupUnique(mid, j);
      }
    }
  }

  /** The rollback is exact only because stocks are non-negative: an item at -1 is
      lifted to 0 by the release and the compensating -1 is then refused. */
  lemma {:induction false} RollbackLeaksOnNegativeStock(items: seq<WarehouseItem>, link: Option<string>, k: int, now: string)
    requires UniqueIds(items) && Truthy(link)
    requires 0 <= k < |items| && items[k].id == link.value && items[k].stock == -1
    ensures Reserved(Released(items, link, now), link, now)[k].stock == 0
  {
    var mid := Released(items, link, now);
    LookupUnique(items, k);
    StockUpdatedObserved(items, link.value, 1, now);
    LookupUnique(mid, k);
  }

  /** Relinking from `from` to a different, stocked `to` returns one unit to the old item
      and takes one from the new item; every other stock is unchanged. */
  lemma {:induction false} RelinkMovesOneUnit(items: seq<WarehouseItem>, from: Option<string>, to: Option<string>, now: string)
    requires UniqueIds(items) && NonNegative(items)
    requires Truthy(to) && to != from && HasStock(items, to.value)
    ensures var after := Reserved(Released(items, from, now), to, now);
            && |after| == |items|
            && forall j :: 0 <= j < |items| ==>
                 && after[j].id == items[j].id
                 && after[j].stock == items[j].stock + (if Truthy(from) && items[j].id == from.value then 1 else 0)
                                                     - (if items[j].id == to.value then 1 else 0)
  {
    var mid := Released(items, from, now);
    ReleaseIsAccepted(items, from, now);
    if Truthy(from) {
      StockUpdatedObserved(items, from.value, 1, now);
    }
    assert Lookup(mid, to.value) == Lookup(items, to.value);
    HasStockMeans(mid, to.value);
  }

  /** Returning a unit to an existing item is always accepted while stocks are non-negative. */
  lemma ReleaseIsAccepted(items: seq<WarehouseItem>, link: Option<string>, now: string)
    requires UniqueIds(items) && NonNegative(items)
    ensures forall j :: 0 <= j < |items| ==>
              Released(items, link, now)[j].stock == items[j].stock + (if Truthy(link) && items[j].id == link.value then 1 else 0)
  {
    if Truthy(link) {
      if j :| 0 <= j < |items| && items[j].id == link.value {
        LookupUnique(items, j);
      }
    }
  }

  /** What `addService` leaves is consistent: ids stay unique, and taking the unit for
      the new service's link, when it had stock, conserves stock plus reservations. */
  lemma {:induction false} AppendKeepsBookkeeping(items: seq<WarehouseItem>, services: seq<Service>, s: Service, now: string)
    requires UniqueIds(items) && UniqueServiceIds(services) && s.id !in ServiceIds(services)
    requires Truthy(s.warehouseItemId) ==> HasStock(items, s.warehouseItemId.value)
    ensures UniqueServiceIds(services + [s])
    ensures var reserved := Reserved(items, s.warehouseItemId, now);
            && UniqueIds(reserved)
            && (NonNegative(items) ==> NonNegative(reserved))
            && Conserved(items, services, reserved, services + [s])
  {
    var link := s.warehouseItemId;
    assert forall i :: 0 <= i < |services| ==> services[i].id == ServiceIds(services)[i];
    assert forall i :: 0 <= i < |services| ==> (services + [s])[i] == services[i];
    StockUpdatedObserved(items, link.GetOr(""), -1, now);
    StockUpdatedKeepsNonNegative(items, link.GetOr(""), -1, now);
    var reserved := Reserved(items, link, now);
    if Truthy(link) {
      HasStockMeans(items, link.value);
    }
    forall j | 0 <= j < |items|
      ensures reserved[j].stock + LinkedCount(services + [s], items[j].id) == items[j].stock + LinkedCount(services, items[j].id)
    {
      LinkedCountAppend(services, s, items[j].id);
    }
  }

  class Workflow {
    var services: seq<Service>
    const ledger: Warehouse

    ghost predicate Valid()
      reads this, ledger
    {
      ledger.Valid() && UniqueServiceIds(services)
    }

    /** `initializeServices`: no services, over the given ledger. */
    constructor (ledger: Warehouse)
      requires ledger.Valid()
      ensures Valid() && services == [] && this.ledger == ledger
    {
      this.ledger := ledger;
      services := [];
    }

    /** `addService`: a linked service needs a unit in stock and takes it; the new
        service is appended in `Pending` status. */
    method AddService(data: ServiceFormData, id: string, now: string) returns (r: Option<Service>)
      requires Valid()
      requires id !in ServiceIds(services)
      modifies this, ledger
      ensures Valid()
      ensures r.None? <==> Truthy(data.warehouseItemId) && !HasStock(old(ledger.items), data.warehouseItemId.value)
      ensures r.None? ==> services == old(services) && ledger.items == old(ledger.items)
      ensures r.Some? ==>
                && r.value == Service(id, data.code, data.name, data.price, data.assignedUser,
                                      data.warehouseItemId, Pending, now, now)
                && services == old(services) + [r.value]
                && ledger.items == Reserved(old(ledger.items), data.warehouseItemId, now)
      ensures r.Some? && Truthy(data.warehouseItemId) ==>
                StockUpdateAccepted(old(ledger.items), data.warehouseItemId.value, -1)
      ensures NonNegative(old(ledger.items)) ==> NonNegative(ledger.items)
      ensures Conserved(old(ledger.items), old(services), ledger.items, services)
    {
      var link := data.warehouseItemId;
      if Truthy(link) {
        var item := Lookup(ledger.items, link.value);
        if item.None? || item.value.stock <= 0 {
          return None;
        }
        HasStockMeans(ledger.items, link.value);
        var taken := ledger.UpdateStock(link.value, -1, now);
      }
      var s := Service(id, data.code, data.name, data.price, data.assignedUser, link, Pending, now, now);
      AppendKeepsBookkeeping(old(ledger.items), services, s, now);
      services := services + [s];
      r := Some(s);
    }

    /** `updateServiceStatus`: only the status and `updatedAt` of the service change. */
    method UpdateServiceStatus(serviceId: string, status: ServiceStatus, now: string) returns (r: Option<Service>)
      requires Valid()
      modifies this
      ensures Valid()
      ensures var k := IndexOf(ServiceIds(old(services)), serviceId);
              if k == -1 then r == None && services == old(services)
              else r == Some(old(services)[k].(status := status, updatedAt := now))
                   && services == old(services)[k := r.value]
      ensures Conserved(ledger.items, old(services), ledger.items, services)
    {
      var k := IndexOf(ServiceIds(services), serviceId);
      if k == -1 {
        return None;
      }
      ghost var before := services;
      r := Some(services[k].(status := status, updatedAt := now));
      services := services[k := r.value];
      assert forall i :: 0 <= i < |services| ==> services[i].id == before[i].id;
      forall j | 0 <= j < |ledger.items|
        ensures LinkedCount(services, ledger.items[j].id) == LinkedCount(before, ledger.items[j].id)
      {
        LinkedCountReplace(before, k, r.value, ledger.items[j].id);
      }
    }

    /** The stock step of `updateService` when the service moves from link `was` to
        the different, non-empty link `link`: the old item gets its unit back, then the
        new item gives one up, or, when it has none, the old item's unit is taken back. */
    method MoveReservation(was: Option<string>, link: Option<string>, now: string) returns (moved: bool)
      requires ledger.Valid()
      requires Truthy(link) && link != was
      modifies ledger
      ensures ledger.Valid()
      ensures moved == HasStock(old(ledger.items), link.value)
      ensures ledger.items == Reserved(Released(old(ledger.items), was, now), if moved then link else was, now)
      ensures NonNegative(old(ledger.items)) ==> NonNegative(ledger.items)
      ensures !moved && NonNegative(old(ledger.items)) ==> SameButTimestamps(old(ledger.items), ledger.items)
    {
      ghost var items0 := ledger.items;
      if Truthy(was) {
        var returned := ledger.UpdateStock(was.value, 1, now);
        StockUpdatedObserved(items0, was.value, 1, now);
        StockUpdatedKeepsNonNegative(items0, was.value, 1, now);
      }
      ghost var items1 := ledger.items;
      assert Lookup(items1, link.value) == Lookup(items0, link.value);
      var newItem := Lookup(ledger.items, link.value);
      if newItem.None? || newItem.value.stock <= 0 {
        if Truthy(was) {
          var retaken := ledger.UpdateStock(was.value, -1, now);
          StockUpdatedKeepsNonNegative(items1, was.value, -1, now);
        }
        if NonNegative(items0) {
          RollbackRestoresStock(items0, was, now);
        }
        return false;
      }
      var taken := ledger.UpdateStock(link.value, -1, now);
      StockUpdatedKeepsNonNegative(items1, link.value, -1, now);
      moved := true;
    }

    /** `updateService`: overwrites the supplied fields. When a non-empty link differs
        from the current one, the reservation moves to the new item, and if the new item
        has no stock the update fails with the service list untouched. */
    method UpdateService(serviceId: string, patch: ServicePatch, now: string) returns (r: Option<Service>)
      requires Valid()
      modifies this, ledger
      ensures Valid()
      ensures var k := IndexOf(ServiceIds(old(services)), serviceId);
              k == -1 ==> r == None && services == old(services) && ledger.items == old(ledger.items)
      ensures var k := IndexOf(ServiceIds(old(services)), serviceId);
              k >= 0 ==>
                var was := old(services)[k].warehouseItemId;
                var link := patch.warehouseItemId;
                if !(Truthy(link) && link != was) then
                  && r == Some(PatchedService(old(services)[k], patch, now))
                  && services == old(services)[k := r.value]
                  && ledger.items == old(ledger.items)
                else if HasStock(old(ledger.items), link.value) then
                  && r == Some(PatchedService(old(services)[k], patch, now))
                  && services == old(services)[k := r.value]
                  && ledger.items == Reserved(Released(old(ledger.items), was, now), link, now)
                else
                  && r == None
                  && services == old(services)
                  && ledger.items == Reserved(Released(old(ledger.items), was, now), was, now)
      ensures r.None? && NonNegative(old(ledger.items)) ==> SameButTimestamps(old(ledger.items), ledger.items)
      ensures NonNegative(old(ledger.items)) ==> NonNegative(ledger.items)
      ensures NonNegative(old(ledger.items)) && (patch.warehouseItemId.Some? ==> patch.warehouseItemId.value != "") ==>
                Conserved(old(ledger.items), old(services), ledger.items, services)
    {
      var k := IndexOf(ServiceIds(services), serviceId);
      if k == -1 {
        return None;
      }
      ghost var items0 := ledger.items;
      var oldService := services[k];
      var was := oldService.warehouseItemId;
      var link := patch.warehouseItemId;
      if Truthy(link) && link != was {
        var moved := MoveReservation(was, link, now);
        if !moved {
          return None;
        }
      }
      ghost var before := services;
      r := Some(PatchedService(oldService, patch, now));
      services := services[k := r.value];
      assert forall i :: 0 <= i < |services| ==> services[i].id == before[i].id;
      if NonNegative(items0) && (link.Some? ==> link.value != "") {
        ConservedAfterUpdate(items0, before, k, patch, now);
      }
    }

    /** `deleteService`: the service's unit goes back to its item (a refused or missing
        item is ignored) and the service is removed whatever its status. */
    method DeleteService(serviceId: string, now: string) returns (ok: bool)
      requires Valid()
      modifies this, ledger
      ensures Valid()
      ensures ok <==> serviceId in ServiceIds(old(services))
      ensures !ok ==> services == old(services) && ledger.items == old(ledger.items)
      ensures ok ==>
                var k := IndexOf(ServiceIds(old(services)), serviceId);
                && services == old(services)[..k] + old(services)[k + 1..]
                && ledger.items == Released(old(ledger.items), old(services)[k].warehouseItemId, now)
      ensures NonNegative(old(ledger.items)) ==> NonNegative(ledger.items)
      ensures NonNegative(old(ledger.items)) ==> Conserved(old(ledger.items), old(services), ledger.items, services)
    {
      var k := IndexOf(ServiceIds(services), serviceId);
      if k == -1 {
        return false;
      }
      var service := services[k];
      ghost var items0 := ledger.items;
      if Truthy(service.warehouseItemId) {
        var returned := ledger.UpdateStock(service.warehouseItemId.value, 1, now);
      }
      ghost var before := services;
      assert before[k].id == serviceId;
      RemovalKeepsBookkeeping(items0, before, k, now);
      services := WithoutService(services, serviceId);
      ok := true;
    }
  }

  /** What `deleteService` leaves is consistent: the service at `k` is the only one
      removed, ids stay unique, and returning its unit conserves stock plus reservations. */
  lemma {:induction false} RemovalKeepsBookkeeping(items: seq<WarehouseItem>, services: seq<Service>, k: int, now: string)
    requires UniqueIds(items) && UniqueServiceIds(services) && 0 <= k < |services|
    ensures var after := WithoutService(services, services[k].id);
            && after == services[..k] + services[k + 1..]
            && UniqueServiceIds(after)
    ensures var released := Released(items, services[k].warehouseItemId, now);
            && UniqueIds(released)
            && (NonNegative(items) ==> NonNegative(released))
            && (NonNegative(items) ==> Conserved(items, services, released, services[..k] + services[k + 1..]))
  {
    var id := services[k].id;
    var link := services[k].warehouseItemId;
    WithoutServiceRemovesOne(services, k);
    FilterKeepsKeysDistinct(services, (s: Service) => s.id != id, (s: Service) => s.id);
    var released := Released(items, link, now);
    StockUpdatedObserved(items, link.GetOr(""), 1, now);
    StockUpdatedKeepsNonNegative(items, link.GetOr(""), 1, now);
    if NonNegative(items) {
      forall j | 0 <= j < |items|
        ensures released[j].stock + LinkedCount(services[..k] + services[k + 1..], items[j].id)
             == items[j].stock + LinkedCount(services, items[j].id)
      {
        LinkedCountRemove(services, k, items[j].id);
        if LinkedTo(services[k], items[j].id) {
          LookupUnique(items, j);
        }
      }
    }
  }

  /** The stock-and-link bookkeeping of a successful `updateService`, from a ledger
      with no negative stock and a patch that supplies no empty link. */
  lemma {:induction false} ConservedAfterUpdate(items: seq<WarehouseItem>, services: seq<Service>, k: int,
                                                patch: ServicePatch, now: string)
    requires UniqueIds(items) && NonNegative(items) && 0 <= k < |services|
    requires patch.warehouseItemId.Some? ==> patch.warehouseItemId.value != ""
    requires var was := services[k].warehouseItemId;
             var link := patch.warehouseItemId;
             Truthy(link) && link != was ==> HasStock(items, link.value)
    ensures var was := services[k].warehouseItemId;
            var link := patch.warehouseItemId;
            var after := if Truthy(link) && link != was then Reserved(Released(items, was, now), link, now) else items;
            Conserved(items, services, after, services[k := PatchedService(services[k], patch, now)])
  {
    var was := services[k].warehouseItemId;
    var link := patch.warehouseItemId;
    var s' := PatchedService(services[k], patch, now);
    var after := if Truthy(link) && link != was then Reserved(Released(items, was, now), link, now) else items;
    if Truthy(link) && link != was {
      RelinkMovesOneUnit(items, was, link, now);
    }
    forall j | 0 <= j < |items|
      ensures after[j].stock + LinkedCount(services[k := s'], items[j].id) == items[j].stock + LinkedCount(services, items[j].id)
    {
      LinkedCountReplace(services, k, s', items[j].id);
    }
  }
}
