/**
 * The value-level rules of the device collection: how an endpoint's facts become a device
 * record, which endpoints are tracked at all, how an added endpoint is merged into the
 * record of its container, how a removed one is taken out again, and how a volume refresh
 * rewrites the table. The engine object in DeviceCollections applies these to its state.
 */
module Reconcile {
  import opened Wrappers
  import opened StringOrder
  import opened NameSets
  import opened CaseInsensitive
  import opened AudioControl

  /** HRESULT S_OK. */
  const S_OK: int := 0

  /** The container id the platform reports for an endpoint without a stable hardware identity. */
  const NoPlugAndPlayGuid: string := "{00000000-0000-0000-FFFF-FFFFFFFFFFFF}"

  /** Merged device names are joined with this character. */
  const NameSeparator: char := '/'

  /** EDataFlow codes. */
  const eRender: int := 0
  const eCapture: int := 1
  const eAll: int := 2

  /** An endpoint's IAudioEndpointVolume, kept so that its change notification can be unregistered. */
  type VolumeSource = nat

  /**
   * What the platform reports about one endpoint when every query succeeds: its endpoint id,
   * its container ("plug-and-play") id, its friendly name, its EDataFlow, its mute state and
   * its master volume already scaled to 0..1000, and its volume interface.
   */
  datatype EndpointFacts = EndpointFacts(
    endpointId: string,
    pnpId: string,
    name: string,
    dataFlow: int,
    muted: bool,
    volume: UInt16,
    volumeSource: VolumeSource)

  /** The collection's configuration: the name substring filter and whether capture endpoints are tracked too. */
  datatype Filter = Filter(nameFilter: string, bothHeadsetAndMicro: bool)

  /** The device table: container id to merged record. */
  type DeviceTable = map<string, DeviceRecord>

  /** Maps the platform's EDataFlow to the library's flow; any code other than the three flows is no flow. */
  function ConvertFromLowLevelFlow(dataFlow: int): (flow: DeviceFlowEnum)
    ensures flow == Render <==> dataFlow == eRender
    ensures flow == Capture <==> dataFlow == eCapture
    ensures flow == RenderAndCapture <==> dataFlow == eAll
    ensures flow == DeviceFlowEnum.None <==> dataFlow !in {eRender, eCapture, eAll}
  {
    if dataFlow == eRender then Render
    else if dataFlow == eCapture then Capture
    else if dataFlow == eAll then RenderAndCapture
    else DeviceFlowEnum.None
  }

  /**
   * The record built from an endpoint's facts: a muted endpoint reads as volume 0, and the
   * volume goes into the field of the endpoint's own flow only.
   */
  function DeviceFromFacts(f: EndpointFacts): (d: DeviceRecord)
    ensures d.pnpId == f.pnpId && d.name == f.name && d.flow == ConvertFromLowLevelFlow(f.dataFlow)
    ensures d.flow != Render || f.muted ==> d.renderVolume == 0
    ensures d.flow != Capture || f.muted ==> d.captureVolume == 0
    ensures d.flow == Render && !f.muted ==> d.renderVolume == f.volume
    ensures d.flow == Capture && !f.muted ==> d.captureVolume == f.volume
  {
    var volume := if f.muted then 0 else f.volume;
    var flow := ConvertFromLowLevelFlow(f.dataFlow);
    match flow
    case Capture => DeviceRecord(f.pnpId, f.name, flow, 0, volume)
    case Render => DeviceRecord(f.pnpId, f.name, flow, volume, 0)
    case _ => DeviceRecord(f.pnpId, f.name, flow, 0, 0)
  }

  /**
   * Whether an endpoint is tracked: not when only render devices are tracked and it is not a
   * render endpoint, not when its name lacks the filter substring (ignoring case), and not
   * when it has no stable container id.
   */
  function IsDeviceApplicable(filter: Filter, d: DeviceRecord): (applicable: bool)
    ensures applicable ==> d.pnpId != NoPlugAndPlayGuid
    ensures applicable ==> filter.bothHeadsetAndMicro || d.flow == Render
    ensures applicable ==> FindSubstrCaseInsensitive(d.name, filter.nameFilter)
    ensures !applicable ==>
      (!filter.bothHeadsetAndMicro && d.flow != Render)
      || !FindSubstrCaseInsensitive(d.name, filter.nameFilter)
      || d.pnpId == NoPlugAndPlayGuid
  {
    if !filter.bothHeadsetAndMicro && d.flow != Render then false
    else if !FindSubstrCaseInsensitive(d.name, filter.nameFilter) then false
    else d.pnpId != NoPlugAndPlayGuid
  }

  /** An enumerated endpoint that reaches the processing step: its facts were retrieved and it passes the filter. */
  predicate Admitted(filter: Filter, e: Option<EndpointFacts>)
  {
    e.Some? && IsDeviceApplicable(filter, DeviceFromFacts(e.value))
  }

  /**
   * The record to store for an endpoint. An endpoint whose container is not in the table is
   * stored as it is. Otherwise the name becomes the set of the stored name's parts plus the
   * endpoint's name, and if the flows differ the record becomes RenderAndCapture, taking the
   * endpoint's flow's volume from the endpoint and the other volume from the stored record.
   * With equal flows both volumes are the endpoint's.
   */
  function MergeDeviceWithExistingOneBasedOnPnpIdAndFlow(table: DeviceTable, d: DeviceRecord): (r: DeviceRecord)
    ensures d.pnpId !in table ==> r == d
    ensures r.pnpId == d.pnpId
    ensures d.pnpId in table ==>
      r.flow == (if table[d.pnpId].flow == d.flow then d.flow else RenderAndCapture)
    ensures d.pnpId in table && NameSeparator !in d.name ==>
      forall part :: part in Split(r.name, NameSeparator) <==>
        part in Split(table[d.pnpId].name, NameSeparator) || part == d.name
    ensures d.pnpId in table && table[d.pnpId].flow != d.flow && d.flow == Capture ==>
      r.renderVolume == table[d.pnpId].renderVolume && r.captureVolume == d.captureVolume
    ensures d.pnpId in table && table[d.pnpId].flow != d.flow && d.flow == Render ==>
      r.renderVolume == d.renderVolume && r.captureVolume == table[d.pnpId].captureVolume
    ensures d.pnpId in table && (table[d.pnpId].flow == d.flow || d.flow !in {Render, Capture}) ==>
      r.renderVolume == d.renderVolume && r.captureVolume == d.captureVolume
  {
    if d.pnpId in table then
      var found := table[d.pnpId];
      var renderVolume :=
        if found.flow != d.flow && d.flow == Capture then found.renderVolume else d.renderVolume;
      var captureVolume :=
        if found.flow != d.flow && d.flow == Render then found.captureVolume else d.captureVolume;
      var flow := if found.flow != d.flow then RenderAndCapture else d.flow;
      DeviceRecord(d.pnpId, WithPart(found.name, d.name, NameSeparator), flow, renderVolume, captureVolume)
    else
      d
  }

  /**
   * The name of a merged record is the separator-join of the stored parts with the endpoint's name
   * inserted: each part once, in increasing order.
   */
  lemma MergedNameIsJoin(table: DeviceTable, d: DeviceRecord)
    requires d.pnpId in table && NameSeparator !in d.name
    ensures var r := MergeDeviceWithExistingOneBasedOnPnpIdAndFlow(table, d);
      Tokens(r.name, NameSeparator) == Insert(Split(table[d.pnpId].name, NameSeparator), d.name)
      && Split(r.name, NameSeparator) == Insert(Split(table[d.pnpId].name, NameSeparator), d.name)
  {
    SplitOfWithPart(table[d.pnpId].name, d.name, NameSeparator);
  }

  /** The table after an applicable endpoint was added: its merged record is stored under its container id. */
  function WithAdded(table: DeviceTable, d: DeviceRecord): DeviceTable
  {
    table[d.pnpId := MergeDeviceWithExistingOneBasedOnPnpIdAndFlow(table, d)]
  }

  /**
   * The name a record keeps when one of its two endpoints goes away: the first part, in set
   * order, that differs from the removed endpoint's name, or that name itself if every part equals it.
   */
  function FirstOther(parts: seq<string>, removed: string): (r: string)
    ensures r == removed || r in parts
    ensures r != removed ==>
      exists i :: 0 <= i < |parts| && parts[i] == r && forall j :: 0 <= j < i ==> parts[j] == removed
    ensures r == removed ==> forall part :: part in parts ==> part == removed
  {
    if |parts| == 0 then removed
    else if parts[0] != removed then parts[0]
    else
      var r := FirstOther(parts[1..], removed);
      assert forall part :: part in parts ==> part == parts[0] || part in parts[1..];
      if r != removed then
        var i :| 0 <= i < |parts[1..]| && parts[1..][i] == r && forall j :: 0 <= j < i ==> parts[1..][j] == removed;
        assert parts[i + 1] == r && forall j :: 0 <= j < i + 1 ==> parts[j] == removed;
        r
      else
        r
  }

  /**
   * The outcome of removing an endpoint from the record of its container, if the removal
   * applies: None when no record exists or the stored flow is neither the endpoint's flow
   * nor RenderAndCapture. A record of the same flow goes away entirely (the result has no flow).
   * A RenderAndCapture record keeps the other flow, the stored volume of that flow and 0 for
   * the removed one, and the first of its name parts that is not the endpoint's name.
   */
  function Unmerged(table: DeviceTable, d: DeviceRecord): Option<DeviceRecord>
  {
    if d.pnpId !in table then Option.None
    else
      var found := table[d.pnpId];
      if found.flow == d.flow then
        Some(DeviceRecord(d.pnpId, d.name, DeviceFlowEnum.None, d.renderVolume, d.captureVolume))
      else if found.flow == RenderAndCapture then
        var name := FirstOther(Split(found.name, NameSeparator), d.name);
        match d.flow
        case Capture => Some(DeviceRecord(d.pnpId, name, Render, found.renderVolume, 0))
        case Render => Some(DeviceRecord(d.pnpId, name, Capture, 0, found.captureVolume))
        case _ => Some(DeviceRecord(d.pnpId, name, d.flow, found.renderVolume, found.captureVolume))
      else
        Option.None
  }

  /**
   * CheckRemovalAndUnmerge: whether the removal of an endpoint applies to the table and the
   * record that results. Before anything is looked up, the out-record is the endpoint's own
   * record with no flow, and that is what it holds when the removal does not apply.
   */
  method CheckRemovalAndUnmergeDeviceFromExistingOneBasedOnPnpIdAndFlow(table: DeviceTable, d: DeviceRecord)
    returns (applies: bool, unmergedDev: DeviceRecord)
    ensures applies <==> Unmerged(table, d).Some?
    ensures applies ==> unmergedDev == Unmerged(table, d).value
    ensures applies <==> d.pnpId in table && table[d.pnpId].flow in {d.flow, RenderAndCapture}
    ensures !applies ==> unmergedDev == DeviceRecord(d.pnpId, d.name, DeviceFlowEnum.None, d.renderVolume, d.captureVolume)
    ensures applies ==> unmergedDev.pnpId == d.pnpId
    ensures applies && table[d.pnpId].flow == d.flow ==> unmergedDev.flow == DeviceFlowEnum.None
    ensures applies && table[d.pnpId].flow != d.flow ==>
      unmergedDev.name == FirstOther(Split(table[d.pnpId].name, NameSeparator), d.name)
    ensures applies && table[d.pnpId].flow != d.flow && d.flow == Render ==>
      unmergedDev.flow == Capture && unmergedDev.renderVolume == 0
      && unmergedDev.captureVolume == table[d.pnpId].captureVolume
    ensures applies && table[d.pnpId].flow != d.flow && d.flow == Capture ==>
      unmergedDev.flow == Render && unmergedDev.captureVolume == 0
      && unmergedDev.renderVolume == table[d.pnpId].renderVolume
  {
    unmergedDev := DeviceRecord(d.pnpId, d.name, DeviceFlowEnum.None, d.renderVolume, d.captureVolume);
    if d.pnpId in table {
      var flow := d.flow;
      var name := d.name;
      var found := table[d.pnpId];
      if found.flow == flow {
        return true, unmergedDev;
      }
      if found.flow == RenderAndCapture {
        var renderVolume := found.renderVolume;
        var captureVolume := found.captureVolume;
        match flow {
          case Capture =>
            flow := Render;
            captureVolume := 0;
          case Render =>
            flow := Capture;
            renderVolume := 0;
          case _ =>
        }
        var parts := Split(found.name, NameSeparator);
        var i := 0;
        while i < |parts|
          invariant 0 <= i <= |parts|
          invariant name == d.name
          invariant FirstOther(parts[i..], d.name) == FirstOther(parts, d.name)
        {
          if parts[i] != name {
            name := parts[i];
            break;
          }
          assert parts[i..][1..] == parts[i + 1..];
          i := i + 1;
        }
        unmergedDev := DeviceRecord(d.pnpId, name, flow, renderVolume, captureVolume);
        return true, unmergedDev;
      }
    }
    return false, unmergedDev;
  }

  /** The table after an applying removal: a record with no flow is erased, any other replaces the stored one. */
  function WithRemoved(table: DeviceTable, unmerged: DeviceRecord): DeviceTable
  {
    if unmerged.flow == DeviceFlowEnum.None then table - {unmerged.pnpId}
    else table[unmerged.pnpId := unmerged]
  }

  /** Every record is stored under its own container id, and the no-id sentinel is never a key. */
  ghost predicate WellKeyed(table: DeviceTable)
  {
    forall k :: k in table ==> table[k].pnpId == k && k != NoPlugAndPlayGuid
  }

  /**
   * UpdateDeviceVolume: the refresh writes the render volume of a Render endpoint's record, and
   * the capture volume for any other flow; an endpoint whose container has no record changes nothing.
   */
  function VolumeRefreshed(table: DeviceTable, d: DeviceRecord): DeviceTable
  {
    if d.pnpId in table then
      var found := table[d.pnpId];
      if d.flow == Render then table[d.pnpId := found.(renderVolume := d.renderVolume)]
      else table[d.pnpId := found.(captureVolume := d.captureVolume)]
    else
      table
  }

  /** The table after the refresh processed the enumerated endpoints in order. */
  function RefreshAll(filter: Filter, table: DeviceTable, endpoints: seq<Option<EndpointFacts>>): (r: DeviceTable)
    ensures r.Keys == table.Keys
    decreases |endpoints|
  {
    if |endpoints| == 0 then table
    else
      var before := RefreshAll(filter, table, endpoints[..|endpoints| - 1]);
      var e := endpoints[|endpoints| - 1];
      if Admitted(filter, e) then VolumeRefreshed(before, DeviceFromFacts(e.value)) else before
  }

  /** The two tables a rebuild fills: devices by container id, volume sources by endpoint id. */
  datatype Tables = Tables(devices: DeviceTable, endpointVolumes: map<string, VolumeSource>)

  /** RegisterDevice: records the endpoint's volume source and stores its merged record. */
  function Registered(t: Tables, f: EndpointFacts): Tables
  {
    var d := DeviceFromFacts(f);
    Tables(WithAdded(t.devices, d), t.endpointVolumes[f.endpointId := f.volumeSource])
  }

  /** The tables after the rebuild processed the enumerated endpoints in order. */
  function RegisterAll(filter: Filter, t: Tables, endpoints: seq<Option<EndpointFacts>>): Tables
    decreases |endpoints|
  {
    if |endpoints| == 0 then t
    else
      var before := RegisterAll(filter, t, endpoints[..|endpoints| - 1]);
      var e := endpoints[|endpoints| - 1];
      if Admitted(filter, e) then Registered(before, e.value) else before
  }

  /** The render (true) or capture (false) volume the last admitted endpoint of container k wrote in a refresh, if any. */
  function LastWrite(filter: Filter, endpoints: seq<Option<EndpointFacts>>, k: string, render: bool): Option<UInt16>
    decreases |endpoints|
  {
    if |endpoints| == 0 then Option.None
    else
      var e := endpoints[|endpoints| - 1];
      if Admitted(filter, e) && DeviceFromFacts(e.value).pnpId == k && (DeviceFromFacts(e.value).flow == Render) == render then
        var d := DeviceFromFacts(e.value);
        Some(if render then d.renderVolume else d.captureVolume)
      else
        LastWrite(filter, endpoints[..|endpoints| - 1], k, render)
  }

  function OrElse(o: Option<UInt16>, fallback: UInt16): UInt16
  {
    if o.Some? then o.value else fallback
  }

  /**
   * A refresh never inserts, erases, renames or re-flows a record: each record's render volume
   * is the last render volume written for its container, its capture volume the last capture
   * volume written, and each is unchanged when nothing was written to it.
   */
  lemma {:induction false} RefreshAllAt(filter: Filter, table: DeviceTable, endpoints: seq<Option<EndpointFacts>>, k: string)
    requires k in table
    ensures k in RefreshAll(filter, table, endpoints)
    ensures var r := RefreshAll(filter, table, endpoints)[k];
      && r.pnpId == table[k].pnpId && r.name == table[k].name && r.flow == table[k].flow
      && r.renderVolume == OrElse(LastWrite(filter, endpoints, k, true), table[k].renderVolume)
      && r.captureVolume == OrElse(LastWrite(filter, endpoints, k, false), table[k].captureVolume)
    decreases |endpoints|
  {
    if |endpoints| > 0 {
      RefreshAllAt(filter, table, endpoints[..|endpoints| - 1], k);
    }
  }

  /** Refreshing twice from the same endpoint facts gives the table refreshing once gives. */
  lemma RefreshIsIdempotent(filter: Filter, table: DeviceTable, endpoints: seq<Option<EndpointFacts>>)
    ensures RefreshAll(filter, RefreshAll(filter, table, endpoints), endpoints) == RefreshAll(filter, table, endpoints)
  {
    var once := RefreshAll(filter, table, endpoints);
    var twice := RefreshAll(filter, once, endpoints);
    forall k | k in table
      ensures twice[k] == once[k]
    {
      RefreshAllAt(filter, table, endpoints, k);
      RefreshAllAt(filter, once, endpoints, k);
    }
  }

  /** A refresh keeps every record under its own container id. */
  lemma RefreshKeepsWellKeyed(filter: Filter, table: DeviceTable, endpoints: seq<Option<EndpointFacts>>)
    requires WellKeyed(table)
    ensures WellKeyed(RefreshAll(filter, table, endpoints))
  {
    forall k | k in table {
      RefreshAllAt(filter, table, endpoints, k);
    }
  }

  /**
   * After a rebuild from given tables, the device table holds exactly the old containers and
   * those of the admitted endpoints, and the volume index exactly the old endpoint ids and those
   * of the admitted endpoints; nothing that failed retrieval or the filter is recorded.
   */
  lemma {:induction false} RegisterAllKeys(filter: Filter, t: Tables, endpoints: seq<Option<EndpointFacts>>)
    ensures forall k :: k in RegisterAll(filter, t, endpoints).devices <==>
      k in t.devices || exists i :: 0 <= i < |endpoints| && Admitted(filter, endpoints[i]) && endpoints[i].value.pnpId == k
    ensures forall id :: id in RegisterAll(filter, t, endpoints).endpointVolumes <==>
      id in t.endpointVolumes || exists i :: 0 <= i < |endpoints| && Admitted(filter, endpoints[i]) && endpoints[i].value.endpointId == id
    decreases |endpoints|
  {
    if |endpoints| > 0 {
      var init := endpoints[..|endpoints| - 1];
      RegisterAllKeys(filter, t, init);
      assert forall i :: 0 <= i < |init| ==> init[i] == endpoints[i];
    }
  }

  /** A rebuild keeps every record under its own container id, and the no-id sentinel never becomes a key. */
  lemma {:induction false} RegisterAllKeepsWellKeyed(filter: Filter, t: Tables, endpoints: seq<Option<EndpointFacts>>)
    requires WellKeyed(t.devices)
    ensures WellKeyed(RegisterAll(filter, t, endpoints).devices)
    decreases |endpoints|
  {
    if |endpoints| > 0 {
      RegisterAllKeepsWellKeyed(filter, t, endpoints[..|endpoints| - 1]);
    }
  }

  /** Adding an applicable endpoint keeps every record under its own container id. */
  lemma AddKeepsWellKeyed(filter: Filter, table: DeviceTable, d: DeviceRecord)
    requires WellKeyed(table) && IsDeviceApplicable(filter, d)
    ensures WellKeyed(WithAdded(table, d))
  {
  }

  /** An applying removal keeps every record under its own container id. */
  lemma RemoveKeepsWellKeyed(table: DeviceTable, d: DeviceRecord)
    requires WellKeyed(table) && Unmerged(table, d).Some?
    ensures WellKeyed(WithRemoved(table, Unmerged(table, d).value))
  {
  }

  /** Whether either volume of a container's record differs between two snapshots. */
  predicate VolumeDiffers(before: DeviceRecord, after: DeviceRecord)
  {
    before.renderVolume != after.renderVolume || before.captureVolume != after.captureVolume
  }

  /** Container `k` is in both snapshots and one of its volumes differs. */
  predicate ChangedIn(before: DeviceTable, updated: DeviceTable, k: string)
  {
    k in before && k in updated && VolumeDiffers(before[k], updated[k])
  }

  /** The containers whose render or capture volume differs between the snapshots, in key order. */
  ghost function ChangedVolumeIds(before: DeviceTable, updated: DeviceTable): seq<string>
  {
    SortedOf(set k | k in before && ChangedIn(before, updated, k))
  }

  /**
   * GetDevicePnPIdsWithChangedVolume: walks the old snapshot in key order and reports each
   * container also present in the new one whose render or capture volume differs, once.
   */
  method GetDevicePnPIdsWithChangedVolume(before: DeviceTable, updated: DeviceTable) returns (diff: seq<string>)
    ensures Sorted(diff)
    ensures forall k :: k in diff <==> ChangedIn(before, updated, k)
    ensures diff == ChangedVolumeIds(before, updated)
  {
    var keys := SortedKeys(before.Keys);
    diff := [];
    ghost var seen: set<string> := {};
    for i := 0 to |keys|
      invariant Sorted(diff)
      invariant seen == set m | 0 <= m < i :: keys[m]
      invariant forall k :: k in diff <==> k in seen && ChangedIn(before, updated, k)
    {
      var id := keys[i];
      assert id in before;
      if id in updated {
        var changed := false;
        if before[id].renderVolume != updated[id].renderVolume {
          changed := true;
        } else if before[id].captureVolume != updated[id].captureVolume {
          changed := true;
        }
        if changed {
          AppendKeepsSorted(keys, diff, i);
          diff := diff + [id];
        }
      }
      seen := seen + {id};
    }
    assert forall k :: k in keys ==> k in seen;
    SortedUnique(diff, ChangedVolumeIds(before, updated));
  }

  /** Appending the next key of a sorted walk to a list drawn from the keys already visited keeps it sorted. */
  lemma AppendKeepsSorted(keys: seq<string>, diff: seq<string>, i: nat)
    requires Sorted(keys) && Sorted(diff) && i < |keys|
    requires forall k :: k in diff ==> exists m :: 0 <= m < i && keys[m] == k
    ensures Sorted(diff + [keys[i]])
  {
    forall j | 0 <= j < |diff|
      ensures Less(diff[j], keys[i])
    {
      assert diff[j] in diff;
      var m :| 0 <= m < i && keys[m] == diff[j];
    }
  }
}
