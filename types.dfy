// Record shapes of the store (lib/types.ts) and the generic sequence helpers
// both stores are built on: first-match lookup and order-preserving filter.

module Types {

  datatype Option<+T> = None | Some(value: T) {
    /** The carried value, or `default` when absent. */
    function GetOr(default: T): T {
      match this
      case Some(v) => v
      case None => default
    }
  }

  /** A service link counts only when JavaScript would find it truthy: present and non-empty. */
  predicate Truthy(link: Option<string>) {
    link.Some? && link.value != ""
  }

  datatype ServiceStatus = Pending | InProgress | Completed

  /** Prices are copied between records and never computed on. */
  type Price = real

  datatype Service = Service(
    id: string,
    code: string,
    name: string,
    price: Price,
    assignedUser: string,
    warehouseItemId: Option<string>,
    status: ServiceStatus,
    createdAt: string,
    updatedAt: string)

  datatype ServiceFormData = ServiceFormData(
    code: string,
    name: string,
    price: Price,
    assignedUser: string,
    warehouseItemId: Option<string>)

  /** A partial `ServiceFormData`: `None` is a key the caller did not supply. */
  datatype ServicePatch = ServicePatch(
    code: Option<string>,
    name: Option<string>,
    price: Option<Price>,
    assignedUser: Option<string>,
    warehouseItemId: Option<string>)

  datatype WarehouseItem = WarehouseItem(
    id: string,
    name: string,
    price: Price,
    stock: int,
    createdAt: string,
    updatedAt: string)

  datatype WarehouseItemFormData = WarehouseItemFormData(name: string, price: Price, stock: int)

  /** A partial `WarehouseItemFormData`: `None` is a key the caller did not supply. */
  datatype ItemPatch = ItemPatch(name: Option<string>, price: Option<Price>, stock: Option<int>)
}

module Seqs {

  /** Position of the first occurrence of `id`, or -1 (JavaScript's `findIndex`). */
  function IndexOf(ids: seq<string>, id: string): (r: int)
    ensures -1 <= r < |ids|
    ensures r == -1 <==> id !in ids
    ensures 0 <= r ==> ids[r] == id && id !in ids[..r]
  {
    if ids == [] then -1
    else if ids[0] == id then 0
    else
      var k := IndexOf(ids[1..], id);
      if k == -1 then -1
      else
        assert ids[1..][..k] == ids[1..k + 1];
        k + 1
  }

  /** The elements of `s` that satisfy `p` (JavaScript's `filter`). */
  function Filter<T>(s: seq<T>, p: T -> bool): (r: seq<T>)
    ensures |r| <= |s|
  {
    if s == [] then []
    else
      assert s == [s[0]] + s[1..];
      (if p(s[0]) then [s[0]] else []) + Filter(s[1..], p)
  }

  /** Exactly the elements that satisfy `p` survive filtering. */
  lemma {:induction false} FilterMembers<T>(s: seq<T>, p: T -> bool)
    ensures forall i :: 0 <= i < |Filter(s, p)| ==> Filter(s, p)[i] in s && p(Filter(s, p)[i])
    ensures forall i :: 0 <= i < |s| && p(s[i]) ==> s[i] in Filter(s, p)
  {
    if s != [] {
      FilterMembers(s[1..], p);
      assert s == [s[0]] + s[1..];
      assert forall i :: 1 <= i < |s| ==> s[i] == s[1..][i - 1];
    }
  }

  /** Filtering distributes over concatenation: the kept elements stay in their order. */
  lemma {:induction false} FilterAppend<T>(a: seq<T>, b: seq<T>, p: T -> bool)
    ensures Filter(a + b, p) == Filter(a, p) + Filter(b, p)
  {
    if a == [] {
      assert a + b == b;
    } else {
      var head := if p(a[0]) then [a[0]] else [];
      assert (a + b)[0] == a[0];
      assert (a + b)[1..] == a[1..] + b;
      calc {
        Filter(a + b, p);
        head + Filter(a[1..] + b, p);
        { FilterAppend(a[1..], b, p); }
        head + (Filter(a[1..], p) + Filter(b, p));
        (head + Filter(a[1..], p)) + Filter(b, p);
        Filter(a, p) + Filter(b, p);
      }
    }
  }

  /** Filtering keeps the length exactly when every element passes, and then keeps `s` itself. */
  lemma {:induction false} FilterKeepsAll<T>(s: seq<T>, p: T -> bool)
    ensures |Filter(s, p)| == |s| <==> forall i :: 0 <= i < |s| ==> p(s[i])
    ensures (forall i :: 0 <= i < |s| ==> p(s[i])) ==> Filter(s, p) == s
  {
    if s != [] {
      FilterKeepsAll(s[1..], p);
      assert forall i :: 1 <= i < |s| ==> s[i] == s[1..][i - 1];
      if !p(s[0]) {
        assert |Filter(s, p)| <= |s| - 1;
      }
    }
  }

  /** When only the element at `k` fails `p`, filtering removes exactly that element. */
  lemma {:induction false} FilterDropsOne<T>(s: seq<T>, k: int, p: T -> bool)
    requires 0 <= k < |s| && !p(s[k])
    requires forall i :: 0 <= i < |s| && i != k ==> p(s[i])
    ensures Filter(s, p) == s[..k] + s[k + 1..]
  {
    var before, after := s[..k], s[k + 1..];
    assert s == before + ([s[k]] + after);
    FilterAppend(before, [s[k]] + after, p);
    FilterAppend([s[k]], after, p);
    assert [s[k]][1..] == [];
    assert forall i :: 0 <= i < |before| ==> before[i] == s[i];
    assert forall i :: 0 <= i < |after| ==> after[i] == s[k + 1 + i];
    FilterKeepsAll(before, p);
    FilterKeepsAll(after, p);
  }

  /** Filtering never brings two elements with the same key together. */
  lemma {:induction false} FilterKeepsKeysDistinct<T>(s: seq<T>, p: T -> bool, key: T -> string)
    requires forall i, j :: 0 <= i < j < |s| ==> key(s[i]) != key(s[j])
    ensures forall i, j :: 0 <= i < j < |Filter(s, p)| ==> key(Filter(s, p)[i]) != key(Filter(s, p)[j])
  {
    if s != [] {
      var rest := Filter(s[1..], p);
      FilterKeepsKeysDistinct(s[1..], p, key);
      FilterMembers(s[1..], p);
      forall j | 0 <= j < |rest|
        ensures key(s[0]) != key(rest[j])
      {
        var m :| 0 <= m < |s[1..]| && s[1..][m] == rest[j];
        assert s[1..][m] == s[m + 1];
      }
    }
  }
}
