/**
 * One headset, seen as a Render endpoint E1 and a Capture endpoint E2 of container C1, both
 * named "Mic", arriving and then going away, with one observer subscribed. The code fires
 * Discovered on both arrivals and Detached on both removals, including the first removal,
 * after which the container survives as a Capture-only record.
 */
module Scenarios {
  import opened Wrappers
  import opened StringOrder
  import opened NameSets
  import opened CaseInsensitive
  import opened AudioControl
  import opened Observers
  import opened Reconcile
  import opened DeviceCollections

  const C1: string := "C1"

  function Render500(): EndpointFacts
  {
    EndpointFacts("E1", C1, "Mic", eRender, false, 500, 1)
  }

  function Capture300(): EndpointFacts
  {
    EndpointFacts("E2", C1, "Mic", eCapture, false, 300, 2)
  }

  /** The only observer, 7, hears one call per broadcast. */
  lemma BroadcastToOne(event: DeviceCollectionEvent, pnpId: string)
    ensures Broadcast({7}, event, pnpId) == [Notification(7, event, pnpId)]
  {
    BroadcastFirst({7}, 7, event, pnpId);
    assert {7} - {7} == {};
  }

  /** Both endpoints pass an empty, render-and-capture filter. */
  lemma BothAdmitted()
    ensures Admitted(Filter("", true), Some(Render500())) && Admitted(Filter("", true), Some(Capture300()))
  {
    EmptyPatternIsFound("Mic");
  }

  lemma FirstAdd()
    ensures DeviceFromFacts(Render500()) == DeviceRecord(C1, "Mic", Render, 500, 0)
    ensures WithAdded(map[], DeviceFromFacts(Render500())) == map[C1 := DeviceRecord(C1, "Mic", Render, 500, 0)]
  {
  }

  lemma SecondAdd()
    ensures DeviceFromFacts(Capture300()) == DeviceRecord(C1, "Mic", Capture, 0, 300)
    ensures WithAdded(map[C1 := DeviceRecord(C1, "Mic", Render, 500, 0)], DeviceFromFacts(Capture300()))
      == map[C1 := DeviceRecord(C1, "Mic", RenderAndCapture, 500, 300)]
  {
    SplitOfAtom("Mic", NameSeparator);
    assert Insert(["Mic"], "Mic") == ["Mic"];
    SplitOfAtom(Merge(["Mic"], NameSeparator), NameSeparator);
  }

  lemma FirstRemove()
    ensures var t := map[C1 := DeviceRecord(C1, "Mic", RenderAndCapture, 500, 300)];
      Unmerged(t, DeviceFromFacts(Render500())) == Some(DeviceRecord(C1, "Mic", Capture, 0, 300))
      && WithRemoved(t, Unmerged(t, DeviceFromFacts(Render500())).value)
        == map[C1 := DeviceRecord(C1, "Mic", Capture, 0, 300)]
  {
    SplitOfAtom("Mic", NameSeparator);
  }

  lemma SecondRemove()
    ensures var t := map[C1 := DeviceRecord(C1, "Mic", Capture, 0, 300)];
      Unmerged(t, DeviceFromFacts(Capture300())).Some?
      && WithRemoved(t, Unmerged(t, DeviceFromFacts(Capture300())).value) == map[]
  {
  }

  /** The headset's two endpoints arrive, Render first: each arrival is announced. */
  method ArriveBoth() returns (collection: DeviceCollection, tables: seq<DeviceTable>)
    ensures fresh(collection) && collection.Valid() && collection.observers == {7}
    ensures collection.filter == Filter("", true)
    ensures collection.notifications == [Notification(7, Discovered, C1), Notification(7, Discovered, C1)]
    ensures collection.devices == map[C1 := DeviceRecord(C1, "Mic", RenderAndCapture, 500, 300)]
    ensures tables == [map[C1 := DeviceRecord(C1, "Mic", Render, 500, 0)], collection.devices]
  {
    collection := new DeviceCollection("", true);
    collection.Subscribe(7);
    var discovered := Notification(7, Discovered, C1);
    BothAdmitted();
    BroadcastToOne(Discovered, C1);

    var status := collection.OnDeviceAdded("E1", S_OK, Some(Render500()));
    assert collection.devices == map[C1 := DeviceRecord(C1, "Mic", Render, 500, 0)] by {
      FirstAdd();
    }
    var after1 := collection.devices;

    status := collection.OnDeviceAdded("E2", S_OK, Some(Capture300()));
    assert collection.devices == map[C1 := DeviceRecord(C1, "Mic", RenderAndCapture, 500, 300)] by {
      SecondAdd();
    }
    tables := [after1, collection.devices];
  }

  /**
   * The four events, in order, and the table after each: {C1: Render 500/0}, then
   * {C1: RenderAndCapture 500/300 "Mic"}, then {C1: Capture 0/300 "Mic"}, then empty.
   */
  method AddTwiceRemoveTwice() returns (log: seq<Notification>, tables: seq<DeviceTable>)
    ensures log == [Notification(7, Discovered, C1), Notification(7, Discovered, C1),
                    Notification(7, Detached, C1), Notification(7, Detached, C1)]
    ensures tables == [map[C1 := DeviceRecord(C1, "Mic", Render, 500, 0)],
                       map[C1 := DeviceRecord(C1, "Mic", RenderAndCapture, 500, 300)],
                       map[C1 := DeviceRecord(C1, "Mic", Capture, 0, 300)],
                       map[]]
  {
    var collection, arrived := ArriveBoth();
    var detached := Notification(7, Detached, C1);
    BothAdmitted();
    BroadcastToOne(Detached, C1);

    assert Unmerged(collection.devices, DeviceFromFacts(Render500())).Some? by {
      FirstRemove();
    }
    var status := collection.OnDeviceRemoved("E1", S_OK, Some(Render500()));
    assert collection.devices == map[C1 := DeviceRecord(C1, "Mic", Capture, 0, 300)] by {
      FirstRemove();
    }
    var after3 := collection.devices;

    assert Unmerged(collection.devices, DeviceFromFacts(Capture300())).Some? by {
      SecondRemove();
    }
    status := collection.OnDeviceRemoved("E2", S_OK, Some(Capture300()));
    assert collection.devices == map[] by {
      SecondRemove();
    }

    log := collection.notifications;
    tables := arrived + [after3, collection.devices];
  }
}
