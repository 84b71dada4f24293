/**
 * Laws relating the add, remove and refresh rules of Reconcile: a container's two endpoints
 * can arrive in either order, removing one endpoint of a merged record gives back the record
 * of the other, removing the only endpoint gives back the table without it, and a refresh
 * repeated with the same enumeration reports no volume change.
 */
module MergeLaws {
  import opened Wrappers
  import opened StringOrder
  import opened NameSets
  import opened AudioControl
  import opened Reconcile

  /** A Render and a Capture endpoint of the same container, with separator-free names. */
  predicate Headset(r: DeviceRecord, c: DeviceRecord)
  {
    r.pnpId == c.pnpId
    && r.flow == Render && c.flow == Capture
    && NameSeparator !in r.name && NameSeparator !in c.name
  }

  /** A headset whose container has no record yet. */
  predicate Pair(table: DeviceTable, r: DeviceRecord, c: DeviceRecord)
  {
    Headset(r, c) && r.pnpId !in table
  }

  /** The name a merge of two separator-free names produces does not depend on their order. */
  lemma WithPartCommutes(a: string, b: string)
    requires NameSeparator !in a && NameSeparator !in b
    ensures WithPart(a, b, NameSeparator) == WithPart(b, a, NameSeparator)
    ensures Split(WithPart(a, b, NameSeparator), NameSeparator) == Insert([a], b)
  {
    SplitOfAtom(a, NameSeparator);
    SplitOfAtom(b, NameSeparator);
    assert Insert([], a) == [a] && Insert([], b) == [b];
    InsertCommutes([], a, b);
    var parts := Insert([a], b);
    forall i | 0 <= i < |parts|
      ensures NameSeparator !in parts[i]
    {
      assert parts[i] in parts;
    }
    SplitOfMerge(parts, NameSeparator);
  }

  /**
   * Adding a container's Render endpoint and then its Capture endpoint gives the same table as the
   * other order, whatever record the container had before.
   */
  lemma AddOrderDoesNotMatter(table: DeviceTable, r: DeviceRecord, c: DeviceRecord)
    requires Headset(r, c)
    ensures WithAdded(WithAdded(table, r), c) == WithAdded(WithAdded(table, c), r)
    ensures var m := WithAdded(WithAdded(table, r), c)[r.pnpId];
      m.flow == RenderAndCapture && m.renderVolume == r.renderVolume && m.captureVolume == c.captureVolume
  {
    if r.pnpId in table {
      AddOrderIntoRecord(table, r, c);
    } else {
      AddOrderIntoNewContainer(table, r, c);
    }
  }

  /** The case of a container that already has a record. */
  lemma AddOrderIntoRecord(table: DeviceTable, r: DeviceRecord, c: DeviceRecord)
    requires Headset(r, c) && r.pnpId in table
    ensures WithAdded(WithAdded(table, r), c) == WithAdded(WithAdded(table, c), r)
    ensures var m := WithAdded(WithAdded(table, r), c)[r.pnpId];
      m.flow == RenderAndCapture && m.renderVolume == r.renderVolume && m.captureVolume == c.captureVolume
  {
    RenderThenCapture(table, r, c);
    CaptureThenRender(table, r, c);
    NamesCommute(table[r.pnpId].name, r.name, c.name);
  }

  /** The case of a container with no record yet. */
  lemma AddOrderIntoNewContainer(table: DeviceTable, r: DeviceRecord, c: DeviceRecord)
    requires Pair(table, r, c)
    ensures WithAdded(WithAdded(table, r), c) == WithAdded(WithAdded(table, c), r)
    ensures var m := WithAdded(WithAdded(table, r), c)[r.pnpId];
      m.flow == RenderAndCapture && m.renderVolume == r.renderVolume && m.captureVolume == c.captureVolume
  {
    MergedPair(table, r, c);
    var k := r.pnpId;
    var first := MergeDeviceWithExistingOneBasedOnPnpIdAndFlow(table, c);
    assert first == c;
    var both := MergeDeviceWithExistingOneBasedOnPnpIdAndFlow(table[k := c], r);
    assert both.name == WithPart(c.name, r.name, NameSeparator);
    WithPartCommutes(r.name, c.name);
  }

  /** Render then Capture merge into an existing record: RenderAndCapture with each endpoint's own volume. */
  lemma RenderThenCapture(table: DeviceTable, r: DeviceRecord, c: DeviceRecord)
    requires Headset(r, c) && r.pnpId in table
    ensures WithAdded(WithAdded(table, r), c)
      == table[r.pnpId := DeviceRecord(r.pnpId, WithPart(WithPart(table[r.pnpId].name, r.name, NameSeparator), c.name, NameSeparator),
                                      RenderAndCapture, r.renderVolume, c.captureVolume)]
  {
    var k := r.pnpId;
    var first := MergeDeviceWithExistingOneBasedOnPnpIdAndFlow(table, r);
    var once := table[k := first];
    assert first.flow != Capture && first.renderVolume == r.renderVolume;
    assert first.name == WithPart(table[k].name, r.name, NameSeparator);
    var both := MergeDeviceWithExistingOneBasedOnPnpIdAndFlow(once, c);
    assert both.flow == RenderAndCapture && both.renderVolume == r.renderVolume && both.captureVolume == c.captureVolume;
    assert both.name == WithPart(first.name, c.name, NameSeparator);
    assert once[k := both] == table[k := both];
  }

  /** Capture then Render merge into an existing record: the same volumes as the other order. */
  lemma CaptureThenRender(table: DeviceTable, r: DeviceRecord, c: DeviceRecord)
    requires Headset(r, c) && r.pnpId in table
    ensures WithAdded(WithAdded(table, c), r)
      == table[r.pnpId := DeviceRecord(r.pnpId, WithPart(WithPart(table[r.pnpId].name, c.name, NameSeparator), r.name, NameSeparator),
                                      RenderAndCapture, r.renderVolume, c.captureVolume)]
  {
    var k := c.pnpId;
    var first := MergeDeviceWithExistingOneBasedOnPnpIdAndFlow(table, c);
    var once := table[k := first];
    assert first.flow != Render && first.captureVolume == c.captureVolume;
    assert first.name == WithPart(table[k].name, c.name, NameSeparator);
    var both := MergeDeviceWithExistingOneBasedOnPnpIdAndFlow(once, r);
    assert both.flow == RenderAndCapture && both.renderVolume == r.renderVolume && both.captureVolume == c.captureVolume;
    assert both.name == WithPart(first.name, r.name, NameSeparator);
    assert once[k := both] == table[k := both];
  }

  /** Merging two separator-free names into a stored name gives the same name in either order. */
  lemma NamesCommute(n: string, a: string, b: string)
    requires NameSeparator !in a && NameSeparator !in b
    ensures WithPart(WithPart(n, a, NameSeparator), b, NameSeparator)
         == WithPart(WithPart(n, b, NameSeparator), a, NameSeparator)
  {
    SplitOfWithPart(n, a, NameSeparator);
    SplitOfWithPart(n, b, NameSeparator);
    InsertCommutes(Split(n, NameSeparator), a, b);
  }

  /** The record a Render and then a Capture endpoint of a new container merge into. */
  lemma MergedPair(table: DeviceTable, r: DeviceRecord, c: DeviceRecord)
    requires Pair(table, r, c)
    ensures WithAdded(WithAdded(table, r), c)
      == table[r.pnpId := DeviceRecord(r.pnpId, WithPart(r.name, c.name, NameSeparator), RenderAndCapture,
                                       r.renderVolume, c.captureVolume)]
  {
  }

  /** Of the two names of a merged record, the one kept on removing either is the other. */
  lemma KeptName(a: string, b: string)
    requires NameSeparator !in a && NameSeparator !in b
    ensures FirstOther(Split(WithPart(a, b, NameSeparator), NameSeparator), b) == a
    ensures FirstOther(Split(WithPart(a, b, NameSeparator), NameSeparator), a) == b
  {
    WithPartCommutes(a, b);
    var parts := Insert([a], b);
    assert a in parts && b in parts;
    if a == b {
      assert parts == [a];
    }
  }

  /**
   * Removing the Capture endpoint from the record merged out of a Render and a Capture endpoint
   * stores the Render endpoint's own record again, as long as that record's capture volume is 0,
   * which is what the volume placement gives a Render endpoint.
   */
  lemma RemoveCaptureUndoesMerge(table: DeviceTable, r: DeviceRecord, c: DeviceRecord)
    requires Pair(table, r, c) && r.captureVolume == 0
    ensures var merged := WithAdded(WithAdded(table, r), c);
      Unmerged(merged, c).Some? && WithRemoved(merged, Unmerged(merged, c).value) == WithAdded(table, r)
  {
    var merged := WithAdded(WithAdded(table, r), c);
    var kept := DeviceRecord(r.pnpId, r.name, Render, r.renderVolume, 0);
    assert Unmerged(merged, c) == Some(kept) by {
      MergedPair(table, r, c);
      KeptName(r.name, c.name);
    }
    assert kept == r;
    assert WithRemoved(merged, kept) == WithAdded(table, r) by {
      MergedPair(table, r, c);
    }
  }

  /** The mirror case: removing the Render endpoint stores the Capture endpoint's own record again. */
  lemma RemoveRenderUndoesMerge(table: DeviceTable, r: DeviceRecord, c: DeviceRecord)
    requires Pair(table, r, c) && c.renderVolume == 0
    ensures var merged := WithAdded(WithAdded(table, r), c);
      Unmerged(merged, r).Some? && WithRemoved(merged, Unmerged(merged, r).value) == WithAdded(table, c)
  {
    var merged := WithAdded(WithAdded(table, r), c);
    var kept := DeviceRecord(c.pnpId, c.name, Capture, 0, c.captureVolume);
    assert Unmerged(merged, r) == Some(kept) by {
      MergedPair(table, r, c);
      KeptName(r.name, c.name);
    }
    assert kept == c;
    assert WithRemoved(merged, kept) == WithAdded(table, c) by {
      MergedPair(table, r, c);
    }
  }

  /** Removing the Render endpoint of a merged headset and adding it again gives back the merged table. */
  lemma ReAddRenderRestoresMerge(table: DeviceTable, r: DeviceRecord, c: DeviceRecord)
    requires Pair(table, r, c) && c.renderVolume == 0
    ensures var merged := WithAdded(WithAdded(table, r), c);
      Unmerged(merged, r).Some? && WithAdded(WithRemoved(merged, Unmerged(merged, r).value), r) == merged
  {
    RemoveRenderUndoesMerge(table, r, c);
    AddOrderDoesNotMatter(table, r, c);
  }

  /** Removing the only endpoint of a container gives back the table the add started from. */
  lemma RemoveUndoesFirstAdd(table: DeviceTable, d: DeviceRecord)
    requires d.pnpId !in table
    ensures Unmerged(WithAdded(table, d), d).Some?
    ensures WithRemoved(WithAdded(table, d), Unmerged(WithAdded(table, d), d).value) == table
  {
    assert WithAdded(table, d) - {d.pnpId} == table;
  }

  /** A second refresh from the same enumeration changes no volume, so OnNotify would report nothing. */
  lemma SecondRefreshReportsNothing(filter: Filter, table: DeviceTable, endpoints: seq<Option<EndpointFacts>>)
    ensures var once := RefreshAll(filter, table, endpoints);
      ChangedVolumeIds(once, RefreshAll(filter, once, endpoints)) == []
  {
    var once := RefreshAll(filter, table, endpoints);
    RefreshIsIdempotent(filter, table, endpoints);
    assert (set k | k in once && ChangedIn(once, once, k)) == {};
  }
}
