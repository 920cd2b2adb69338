// A client of both stores: one widget in stock, two services competing for it.

module Scenario {
  import opened Types
  import opened WarehouseStore
  import opened ServiceStore

  /** The last unit goes to the first service; the second is refused until the first
      is deleted and its unit comes back. */
  method LastUnitIsReservedOnce() {
    var ledger := new Warehouse();
    var widget := ledger.AddItem(WarehouseItemFormData("Widget", 10.0, 1), "w1", "t0");
    var flow := new Workflow(ledger);
    assert HasStock(ledger.items, "w1") by {
      LookupUnique(ledger.items, 0);
    }

    var s1 := flow.AddService(ServiceFormData("S1", "Fit widget", 10.0, "u1@example.com", Some("w1")), "s1", "t1");
    assert s1.Some?;
    assert ledger.items[0].stock == 0 by {
      LookupUnique([widget], 0);
    }

    var s2 := flow.AddService(ServiceFormData("S2", "Fit widget", 10.0, "u2@example.com", Some("w1")), "s2", "t2");
    assert s2.None? by {
      LookupUnique(ledger.items, 0);
    }
    assert |flow.services| == 1;
    assert ServiceIds(flow.services)[0] == "s1";

    ghost var before := ledger.items;
    var deleted := flow.DeleteService("s1", "t3");
    assert deleted;
    assert ledger.items[0].stock == 1 by {
      LookupUnique(before, 0);
    }

    var s3 := flow.AddService(ServiceFormData("S3", "Fit widget", 10.0, "u2@example.com", Some("w1")), "s3", "t4");
    assert s3.Some? by {
      LookupUnique(ledger.items, 0);
    }
  }
}
