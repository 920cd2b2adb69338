# Warehouse-linked service workflow

This project models the two stores behind the inventory and service-assignment admin tool.

- **Warehouse ledger** (`lib/warehouse-store.ts`): an ordered list of warehouse items. It supports lookup, append, partial overwrite and removal. `updateStock` is the guarded stock primitive: it refuses a missing id, and it refuses any change that would leave the stock below zero. It never clamps.
- **Service workflow** (`lib/service-store.ts`): an ordered list of services. Each service may be linked to one warehouse item. The link holds an implicit reservation of one unit of that item's stock, so creating, relinking and deleting a service move stock in the ledger. The workflow also has the access rule `canEditService` and the selection `getUserServices`.

## Layout

- `types.dfy`
  - Module `Types`: the record shapes of `lib/types.ts`. An optional `warehouseItemId` is an `Option<string>`. `Truthy` reproduces JavaScript's truthiness test on it, so an empty string counts as "no link".
  - Module `Seqs`: first-match search (`findIndex`) and order-preserving `filter`, with their lemmas.
- `warehouse.dfy`, module `WarehouseStore`: pure lookups over the item list, plus class `Warehouse`. The class owns the list as a `seq` field, and its methods reassign that field the way the source writes the list back.
  - `StockUpdated` is the ledger that `updateStock` leaves behind. `UpdateStock` is proved equal to it.
- `services.dfy`, module `ServiceStore`: the pure selection and access rules, the reservation bookkeeping, and class `Workflow`.
  - `Workflow` owns the service list and holds the ledger it reserves from.
  - `LinkedCount(services, id)` counts the units that services reserve on item `id`.
  - `Conserved` states the key invariant: for every item, its stock plus the units reserved on it is the same before and after an operation.
- `scenario.dfy`: a client. One widget is in stock, a first service takes it, a second is refused, and after the first is deleted a third succeeds.

## Behaviour of the code worth knowing

- `addService` (lib/service-store.ts:49-58) stores the caller's `price` as given. It does not read the linked item's price; the creation dialog passes the item's current price.
- `addWarehouseItem` (lib/warehouse-store.ts:32-46) stores `price` and `stock` unchecked, and `updateWarehouseItem` can set any stock. A stock is non-negative only while callers keep it so. Only some guarantees depend on it, and those are stated under `NonNegative` of the ledger before the call:
  - that `NonNegative` itself is preserved;
  - the exact rollback of a failed relink (`RollbackRestoresStock`, and `SameButTimestamps` in `UpdateService` and `MoveReservation`);
  - `Conserved` for `UpdateService` and `DeleteService`. At stock -2, the `+1` of a delete is refused, so a reservation is lost.

  `UpdateStock`'s contract, `AddService`'s `Conserved` and `UpdateServiceStatus`'s `Conserved` hold whatever the stocks are.
- When `updateService` fails (lib/service-store.ts:95-107), the rollback restores stock counts only. The old item's `updatedAt` is refreshed twice.
- That rollback is exact only when the old item's stock is non-negative. At a stock of -1, the `+1` is accepted (giving 0) and the compensating `-1` is refused, so the item ends at 0. `RollbackLeaksOnNegativeStock` states this for any ledger.
- `updateService` given an empty `warehouseItemId` (lib/service-store.ts:93, 112-116) overwrites the link and returns no stock. Stock plus reservations is therefore conserved only for patches that supply no empty link. `EmptyLinkDropsReservation` states the lost unit.

## Model

| member | source | states |
|---|---|---|
| `Seqs.IndexOf` | lib/warehouse-store.ts:79-81 | `findIndex`: -1 exactly when the id is absent; otherwise a position holding the id, with no earlier occurrence |
| `Seqs.Filter` | lib/warehouse-store.ts:68 | a filter result is never longer than its input |
| `Seqs.FilterMembers` | lib/service-store.ts:29 | exactly the elements satisfying the predicate survive a filter |
| `Seqs.FilterAppend` | lib/service-store.ts:29 | filtering distributes over concatenation, so kept elements stay in stored order |
| `Seqs.FilterKeepsAll` | lib/warehouse-store.ts:68-70 | a filter keeps the length iff every element passes, and then returns the input unchanged (the `length ===` test in `deleteWarehouseItem`) |
| `Seqs.FilterDropsOne` | lib/service-store.ts:134 | when only one element fails the predicate, the filter removes exactly that element and keeps the rest in order |
| `Seqs.FilterKeepsKeysDistinct` | lib/service-store.ts:134 | filtering a list with distinct ids leaves distinct ids |
| `WarehouseStore.Lookup` | lib/warehouse-store.ts:26-29 | `getWarehouseItem` is null exactly when no item has the id; a found item carries the id |
| `WarehouseStore.HasStock` | lib/warehouse-store.ts:97-100 | `hasStock` holds iff `updateStock(id, -1)` would be accepted, and then some item with the id has stock above zero |
| `WarehouseStore.StockUpdated` | lib/warehouse-store.ts:83-93 | the list `updateStock` writes back (with unique ids, only the `findIndex` item can change): same length; each item is either unchanged, or has the id and gains exactly `quantity` units and the new `updatedAt`; a refusal writes back the same list |
| `WarehouseStore.Patched` | lib/warehouse-store.ts:55-59 | `updateWarehouseItem`'s spread merge keeps `id` and `createdAt`, sets `updatedAt`, takes a supplied stock as given, and with nothing supplied changes only `updatedAt` |
| `WarehouseStore.WithoutItem` | lib/warehouse-store.ts:68 | `deleteWarehouseItem`'s filter keeps no item with the id, and keeps every item with another id |
| `WarehouseStore.LookupFindsFirst` | lib/warehouse-store.ts:26-29 | `getWarehouseItem` returns the first item with the id, whatever follows it |
| `WarehouseStore.HasStockMeans` | lib/warehouse-store.ts:97-100 | `hasStock` holds iff the first item with the id exists and has stock > 0, iff `updateStock(id, -1)` would be accepted |
| `WarehouseStore.StockUpdateRefusals` | lib/warehouse-store.ts:78-84 | `updateStock` refuses a missing id and any result below zero, even for a positive quantity, and a refusal leaves the list unchanged |
| `WarehouseStore.StockUpdatedObserved` | lib/warehouse-store.ts:77-94 | after `updateStock`, ids stay the same and unique, every other id looks up to the same item, and on acceptance the item has stock `old + quantity` with only `updatedAt` also changed |
| `WarehouseStore.StockUpdatedKeepsNonNegative` | lib/warehouse-store.ts:83-93 | if every stock is ≥ 0 before `updateStock`, with any quantity, every stock is ≥ 0 after it |
| `WarehouseStore.WithoutItemKeepsOrder` | lib/warehouse-store.ts:66-74 | `deleteWarehouseItem`'s filter keeps exactly the items with another id, in their order |
| `WarehouseStore.Warehouse.constructor` | lib/warehouse-store.ts:9-15 | `initializeWarehouse`: an empty ledger |
| `WarehouseStore.Warehouse.AddItem` | lib/warehouse-store.ts:32-46 | appends exactly one item with the fresh id and the given name, price and stock (unchecked, so a negative stock breaks `NonNegative`); earlier items are untouched |
| `WarehouseStore.Warehouse.UpdateItem` | lib/warehouse-store.ts:49-63 | missing id: null and no change; otherwise only that item changes, taking the supplied fields (stock included, without `updateStock`'s guard) and a fresh `updatedAt` |
| `WarehouseStore.Warehouse.DeleteItem` | lib/warehouse-store.ts:66-74 | returns false and changes nothing iff no item has the id; otherwise the list becomes the items with other ids |
| `WarehouseStore.Warehouse.UpdateStock` | lib/warehouse-store.ts:77-94 | accepted iff the item exists and `stock + quantity >= 0`; the new list is `StockUpdated` of the old, found by `findIndex` and proved equal to the by-id definition |
| `ServiceStore.UserServices` | lib/service-store.ts:27-30 | `getUserServices` returns only services assigned to the email, and every such service |
| `ServiceStore.UserServicesInOrder` | lib/service-store.ts:27-30 | the selection keeps stored order |
| `ServiceStore.CanEdit` | lib/service-store.ts:27-35 | `canEditService`: admins may edit everything; otherwise it holds, for any list containing the service, iff the service is among `getUserServices` for that email |
| `ServiceStore.Released` | lib/service-store.ts:129-132 | `updateStock(link, 1)` under a truthy link: ids and length unchanged, each stock unchanged or one higher, nothing at all without a truthy link |
| `ServiceStore.Reserved` | lib/service-store.ts:45-48 | `updateStock(link, -1)` under a truthy link: ids and length unchanged, each stock unchanged or one lower, nothing at all without a truthy link |
| `ServiceStore.PatchedService` | lib/service-store.ts:112-116 | `updateService`'s spread merge keeps `id`, `status` and `createdAt`, sets `updatedAt`, takes a supplied link (an empty one included), and with nothing supplied changes only `updatedAt` |
| `ServiceStore.WithoutService` | lib/service-store.ts:134 | `deleteService`'s filter keeps no service with the id, and keeps every service with another id |
| `ServiceStore.LinkedCountAppend` | lib/service-store.ts:40-60 | appending a service adds its reservation, if its link is truthy |
| `ServiceStore.LinkedCountReplace` | lib/service-store.ts:112-116 | replacing a service in place trades its reservation for that of the replacement |
| `ServiceStore.LinkedCountRemove` | lib/service-store.ts:134 | removing a service drops its reservation |
| `ServiceStore.WithoutServiceRemovesOne` | lib/service-store.ts:134 | with distinct ids, `deleteService`'s filter removes exactly the one service and keeps the others in order |
| `ServiceStore.EmptyLinkDropsReservation` | lib/service-store.ts:93 | an empty link supplied to `updateService` unlinks the service, and the reserved count on the old item drops by one with no stock returned |
| `ServiceStore.RollbackRestoresStock` | lib/service-store.ts:95-107 | returning the old item's unit and taking it back restores every stock when no stock was negative; only timestamps move |
| `ServiceStore.RollbackLeaksOnNegativeStock` | lib/service-store.ts:95-107 | in any ledger with distinct ids, if the old item is at stock -1, the `+1`/`-1` rollback leaves it at 0 |
| `ServiceStore.ReleaseIsAccepted` | lib/service-store.ts:130-131 | while stocks are non-negative, returning a unit to an existing item always succeeds |
| `ServiceStore.RelinkMovesOneUnit` | lib/service-store.ts:93-110 | from a ledger with no negative stock, relinking to a different, stocked item adds one unit to the old item, removes one from the new item, and leaves all other stocks alone |
| `ServiceStore.AppendKeepsBookkeeping` | lib/service-store.ts:40-63 | a successful `addService` keeps ids unique and stocks non-negative, and conserves stock plus reservations |
| `ServiceStore.RemovalKeepsBookkeeping` | lib/service-store.ts:123-137 | `deleteService` removes exactly that service, keeps ids unique, and, while stocks are non-negative, returns its unit so that stock plus reservations is conserved |
| `ServiceStore.ConservedAfterUpdate` | lib/service-store.ts:84-119 | from a ledger with no negative stock, a successful `updateService` with no empty link supplied conserves stock plus reservations, whether it relinks or not |
| `ServiceStore.Workflow.constructor` | lib/service-store.ts:10-16 | `initializeServices`: no services, over the given ledger |
| `ServiceStore.Workflow.AddService` | lib/service-store.ts:38-64 | fails iff the link is truthy and `hasStock` is false, changing nothing; otherwise appends a `Pending` service with the caller's fields and takes exactly one unit from the linked item (and none without a link); conserves stock plus reservations |
| `ServiceStore.Workflow.UpdateServiceStatus` | lib/service-store.ts:67-81 | missing id: null and no change; otherwise only that service's status and `updatedAt` change; the ledger is not touched |
| `ServiceStore.Workflow.MoveReservation` | lib/service-store.ts:93-110 | returns one unit to the old item, then takes one from the new item if it has stock, or else takes the old unit back; succeeds iff the new item had stock |
| `ServiceStore.Workflow.UpdateService` | lib/service-store.ts:84-120 | missing id: null and no change; with no link, a falsy link or the same link, the supplied fields are overwritten and no stock moves; when relinking, the reservation moves, or the call fails with the service list untouched; from a ledger with no negative stock, a failure restores every stock count, and a call supplying no empty link conserves stock plus reservations |
| `ServiceStore.Workflow.DeleteService` | lib/service-store.ts:123-137 | returns false and changes nothing for a missing id; otherwise returns the unit to the linked item (ignoring a refusal) and removes the service whatever its status; from a ledger with no negative stock, conserves stock plus reservations |

## Left out

- Browser storage: `localStorage`, JSON (de)serialisation and the `typeof window` guards are not modelled. The two stored lists are the `items` and `services` fields; `getAllWarehouseItems` and `getAllServices` are reads of those fields.
- `generateId` (`Math.random`): new ids are passed in, with a precondition that they are unused. This uniqueness is what the `Valid()` invariants rely on.
- Timestamps (`new Date().toISOString()`): they are an opaque `now` parameter. All `updateStock` calls inside one operation share the same `now`.
- Stock is modelled as an unbounded integer. The source stores a JavaScript number, so fractional or `NaN` stocks (for example from `parseInt` of an empty field) are not modelled. With a stock of 0.5, `addService` passes the `stock > 0` check but its `-1` is refused.
- Prices are `real` values that are only copied. Floating-point revenue sums in the payments page are out of scope.
- `ServiceStore.Workflow.UpdateService` and `ServiceStore.PatchedService`: the patch has exactly the fields of `Partial<ServiceFormData>`. The JavaScript spread also copies any extra key a caller passes; the edit dialog passes `status`, so at run time `updateService` can change the status too. A key passed with the value `undefined` would also be copied. Neither effect is modelled.
- Field-level authorisation (non-admins send only `status`) and the `min="0"` form inputs belong to the UI, not the stores, and are not modelled.
- The authentication provider, cookie middleware, React components, pages and hooks are presentation and I/O.
- Concurrency: every operation is atomic and sequential. Cross-tab lost updates on the stored lists are outside the model.
