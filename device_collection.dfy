/**
 * The device collection engine: the table of merged device records by container id, the
 * volume interfaces by endpoint id, the set of observers, and the handlers the platform calls
 * when an endpoint appears, goes away, changes state or changes volume.
 *
 * The platform side is passed in: an enumeration is the sequence of what each enumerated
 * endpoint's queries returned (None where one failed), a per-id lookup is one such Option,
 * and the status of the base notification client's handler is a parameter. The calls made
 * to observers are recorded, in order, in `notifications`.
 */
module DeviceCollections {
  import opened Wrappers
  import opened StringOrder
  import opened AudioControl
  import opened Observers
  import opened Reconcile

  /** DEVICE_STATE_XXX codes. */
  const DEVICE_STATE_ACTIVE: int := 1
  const DEVICE_STATE_DISABLED: int := 2
  const DEVICE_STATE_NOTPRESENT: int := 4
  const DEVICE_STATE_UNPLUGGED: int := 8

  /** The two runtime errors CreateItem throws; CreateItem provably never produces the second. */
  datatype CollectionError = DeviceNumberTooBig | DeviceNumberNotFound

  /** The per-endpoint step of an enumeration pass. */
  datatype Process = Register | UpdateVolume

  class DeviceCollection {
    const filter: Filter
    /** pnpToDeviceMap_ */
    var devices: DeviceTable
    /** devIdToEndpointVolumes_ */
    var endpointVolumes: map<string, VolumeSource>
    /** observers_ */
    var observers: set<ObserverId>
    /** Every OnCollectionChanged call made so far, in order. */
    var notifications: seq<Notification>

    /** The table keeps each record under its own container id and never stores the no-id sentinel. */
    ghost predicate Valid()
      reads this
    {
      WellKeyed(devices)
    }

    /** A new collection holds no device, no volume interface and no observer. */
    constructor (nameFilter: string, bothHeadsetAndMicro: bool)
      ensures filter == Filter(nameFilter, bothHeadsetAndMicro)
      ensures devices == map[] && endpointVolumes == map[] && observers == {} && notifications == []
      ensures Valid()
    {
      filter := Filter(nameFilter, bothHeadsetAndMicro);
      devices := map[];
      endpointVolumes := map[];
      observers := {};
      notifications := [];
    }

    /** The number of distinct containers, which is the number of items CreateItem can list. */
    function GetSize(): (n: nat)
      reads this
      ensures n == |SortedOf(devices.Keys)|
    {
      |devices|
    }

    /** The record at position `deviceNumber` in container-id order, or the error CreateItem throws. */
    method CreateItem(deviceNumber: nat) returns (r: Result<DeviceRecord, CollectionError>)
      ensures r.Success? <==> deviceNumber < GetSize()
      ensures r.Success? ==> r.value == devices[SortedOf(devices.Keys)[deviceNumber]]
      ensures r.Failure? ==> r.error == DeviceNumberTooBig
    {
      if deviceNumber >= |devices| {
        return Failure(DeviceNumberTooBig);
      }
      var keys := SortedKeys(devices.Keys);
      SortedUnique(keys, SortedOf(devices.Keys));
      var i := 0;
      while i < |keys|
        invariant 0 <= i <= deviceNumber
      {
        if i == deviceNumber {
          return Success(devices[keys[i]]);
        }
        i := i + 1;
      }
      // The walk always reaches deviceNumber, so the "not found" throw of the C++ is dead code.
      assert false;
    }

    method Subscribe(observer: ObserverId)
      modifies this`observers
      ensures observers == old(observers) + {observer}
    {
      observers := observers + {observer};
    }

    method Unsubscribe(observer: ObserverId)
      modifies this`observers
      ensures observers == old(observers) - {observer}
    {
      observers := observers - {observer};
    }

    /** Calls OnCollectionChanged(event, pnpId) on every observer once, in ascending order. */
    method NotifyObservers(event: DeviceCollectionEvent, pnpId: string)
      modifies this`notifications
      ensures notifications == old(notifications) + Broadcast(observers, event, pnpId)
    {
      var remaining := observers;
      while remaining != {}
        invariant notifications + Broadcast(remaining, event, pnpId) ==
          old(notifications) + Broadcast(observers, event, pnpId)
        decreases remaining
      {
        assert IsLeast(remaining, Least(remaining));
        var m :| IsLeast(remaining, m);
        BroadcastFirst(remaining, m, event, pnpId);
        RecordInTwoSteps(notifications, [Notification(m, event, pnpId)], Broadcast(remaining - {m}, event, pnpId));
        notifications := notifications + [Notification(m, event, pnpId)];
        remaining := remaining - {m};
      }
    }

    /** RegisterDevice: keeps the endpoint's volume interface and stores its merged record. */
    method RegisterDevice(f: EndpointFacts)
      requires Valid() && IsDeviceApplicable(filter, DeviceFromFacts(f))
      modifies this`devices, this`endpointVolumes
      ensures Tables(devices, endpointVolumes) == Registered(old(Tables(devices, endpointVolumes)), f)
      ensures Valid()
    {
      var device := DeviceFromFacts(f);
      AddKeepsWellKeyed(filter, devices, device);
      endpointVolumes := endpointVolumes[f.endpointId := f.volumeSource];
      devices := devices[device.pnpId := MergeDeviceWithExistingOneBasedOnPnpIdAndFlow(devices, device)];
    }

    /** UpdateDeviceVolume: writes the endpoint's volume into the record of its container, if there is one. */
    method UpdateDeviceVolume(f: EndpointFacts)
      requires Valid()
      modifies this`devices
      ensures devices == VolumeRefreshed(old(devices), DeviceFromFacts(f))
      ensures Valid()
    {
      var device := DeviceFromFacts(f);
      if device.pnpId in devices {
        var found := devices[device.pnpId];
        if device.flow == Render {
          found := found.(renderVolume := device.renderVolume);
        } else {
          found := found.(captureVolume := device.captureVolume);
        }
        devices := devices[device.pnpId := found];
      }
    }

    /**
     * Walks the enumerated endpoints in order, skipping those whose queries failed and those
     * the filter rejects, and applies the step to the others.
     */
    method ProcessActiveDeviceList(endpoints: seq<Option<EndpointFacts>>, step: Process)
      requires Valid()
      modifies this`devices, this`endpointVolumes
      ensures step == Register ==>
        Tables(devices, endpointVolumes) == RegisterAll(filter, old(Tables(devices, endpointVolumes)), endpoints)
      ensures step == UpdateVolume ==>
        devices == RefreshAll(filter, old(devices), endpoints) && endpointVolumes == old(endpointVolumes)
      ensures Valid()
    {
      for i := 0 to |endpoints|
        invariant Valid()
        invariant step == Register ==>
          Tables(devices, endpointVolumes) == RegisterAll(filter, old(Tables(devices, endpointVolumes)), endpoints[..i])
        invariant step == UpdateVolume ==>
          devices == RefreshAll(filter, old(devices), endpoints[..i]) && endpointVolumes == old(endpointVolumes)
      {
        assert endpoints[..i + 1][..i] == endpoints[..i];
        var e := endpoints[i];
        if e.None? {
          continue;
        }
        var device := DeviceFromFacts(e.value);
        if !IsDeviceApplicable(filter, device) {
          continue;
        }
        match step {
          case Register => RegisterDevice(e.value);
          case UpdateVolume => UpdateDeviceVolume(e.value);
        }
      }
      assert endpoints[..|endpoints|] == endpoints;
    }

    /** Empties both tables and registers every applicable enumerated endpoint again. */
    method RecreateActiveDeviceList(endpoints: seq<Option<EndpointFacts>>)
      requires Valid()
      modifies this`devices, this`endpointVolumes
      ensures Tables(devices, endpointVolumes) == RegisterAll(filter, Tables(map[], map[]), endpoints)
      ensures Valid()
    {
      devices := map[];
      endpointVolumes := map[];
      ProcessActiveDeviceList(endpoints, Register);
    }

    method ResetContent(endpoints: seq<Option<EndpointFacts>>)
      requires Valid()
      modifies this`devices, this`endpointVolumes
      ensures Tables(devices, endpointVolumes) == RegisterAll(filter, Tables(map[], map[]), endpoints)
      ensures Valid()
    {
      RecreateActiveDeviceList(endpoints);
    }

    /** Rewrites the volumes of the stored records from the enumerated endpoints. */
    method RefreshVolumes(endpoints: seq<Option<EndpointFacts>>)
      requires Valid()
      modifies this`devices, this`endpointVolumes
      ensures devices == RefreshAll(filter, old(devices), endpoints) && endpointVolumes == old(endpointVolumes)
      ensures Valid()
    {
      ProcessActiveDeviceList(endpoints, UpdateVolume);
    }

    /** Drops the volume interface kept for an endpoint id, if any. */
    method UnregisterAndRemoveEndpointsVolumes(deviceId: string)
      modifies this`endpointVolumes
      ensures endpointVolumes == old(endpointVolumes) - {deviceId}
    {
      if deviceId in endpointVolumes {
        endpointVolumes := endpointVolumes - {deviceId};
      }
    }

    /**
     * What OnDeviceAdded does: when the base handler succeeded, the endpoint's facts could be
     * read and it is applicable, its merged record is stored, its volume interface is kept and
     * every observer hears Discovered for its container; otherwise nothing changes.
     */
    twostate predicate AddHandled(deviceId: string, baseStatus: int, facts: Option<EndpointFacts>)
      reads this
    {
      if baseStatus == S_OK && Admitted(filter, facts) then
        devices == WithAdded(old(devices), DeviceFromFacts(facts.value))
        && endpointVolumes == old(endpointVolumes)[deviceId := facts.value.volumeSource]
        && notifications == old(notifications) + Broadcast(observers, Discovered, facts.value.pnpId)
      else
        devices == old(devices) && endpointVolumes == old(endpointVolumes) && notifications == old(notifications)
    }

    /**
     * What OnDeviceRemoved does: when the base handler succeeded, the facts could be read, the
     * endpoint is applicable and the removal applies to its container's record, the record is
     * erased or replaced by the unmerged one, the volume interface is dropped and every observer
     * hears Detached for the container; otherwise nothing changes.
     */
    twostate predicate RemoveHandled(deviceId: string, baseStatus: int, facts: Option<EndpointFacts>)
      reads this
    {
      if baseStatus == S_OK && Admitted(filter, facts)
        && Unmerged(old(devices), DeviceFromFacts(facts.value)).Some? then
        devices == WithRemoved(old(devices), Unmerged(old(devices), DeviceFromFacts(facts.value)).value)
        && endpointVolumes == old(endpointVolumes) - {deviceId}
        && notifications == old(notifications) + Broadcast(observers, Detached, facts.value.pnpId)
      else
        devices == old(devices) && endpointVolumes == old(endpointVolumes) && notifications == old(notifications)
    }

    /** OnDeviceAdded: returns the base handler's status and handles the endpoint only when it is S_OK. */
    method OnDeviceAdded(deviceId: string, baseStatus: int, facts: Option<EndpointFacts>) returns (status: int)
      requires Valid()
      modifies this`devices, this`endpointVolumes, this`notifications
      ensures status == baseStatus
      ensures AddHandled(deviceId, baseStatus, facts)
      ensures Valid()
    {
      if baseStatus == S_OK {
        if facts.Some? && IsDeviceApplicable(filter, DeviceFromFacts(facts.value)) {
          var device := DeviceFromFacts(facts.value);
          var possiblyMergedDevice := MergeDeviceWithExistingOneBasedOnPnpIdAndFlow(devices, device);
          AddKeepsWellKeyed(filter, devices, device);
          devices := devices[device.pnpId := possiblyMergedDevice];
          endpointVolumes := endpointVolumes[deviceId := facts.value.volumeSource];
          NotifyObservers(Discovered, device.pnpId);
        }
      }
      return baseStatus;
    }

    /** OnDeviceRemoved: returns the base handler's status and handles the endpoint only when it is S_OK. */
    method OnDeviceRemoved(deviceId: string, baseStatus: int, facts: Option<EndpointFacts>) returns (status: int)
      requires Valid()
      modifies this`devices, this`endpointVolumes, this`notifications
      ensures status == baseStatus
      ensures RemoveHandled(deviceId, baseStatus, facts)
      ensures Valid()
    {
      if baseStatus == S_OK {
        if facts.Some? && IsDeviceApplicable(filter, DeviceFromFacts(facts.value)) {
          var removedDeviceToUnmerge := DeviceFromFacts(facts.value);
          var applies, possiblyUnmergedDevice :=
            CheckRemovalAndUnmergeDeviceFromExistingOneBasedOnPnpIdAndFlow(devices, removedDeviceToUnmerge);
          if applies {
            RemoveKeepsWellKeyed(devices, removedDeviceToUnmerge);
            if possiblyUnmergedDevice.flow == DeviceFlowEnum.None {
              devices := devices - {possiblyUnmergedDevice.pnpId};
            } else {
              devices := devices[possiblyUnmergedDevice.pnpId := possiblyUnmergedDevice];
            }
            UnregisterAndRemoveEndpointsVolumes(deviceId);
            NotifyObservers(Detached, removedDeviceToUnmerge.pnpId);
          }
        }
      }
      return baseStatus;
    }

    /**
     * OnDeviceStateChanged: ACTIVE is handled as an addition, DISABLED, NOTPRESENT and UNPLUGGED
     * as a removal, and the status is then that handler's; any other state changes nothing and
     * returns the base handler's status. `handlerBaseStatus` is what the base client's own
     * OnDeviceAdded or OnDeviceRemoved returns inside that handler.
     */
    method OnDeviceStateChanged(deviceId: string, newState: int, baseStatus: int, handlerBaseStatus: int,
                                facts: Option<EndpointFacts>) returns (status: int)
      requires Valid()
      modifies this`devices, this`endpointVolumes, this`notifications
      ensures newState == DEVICE_STATE_ACTIVE ==>
        status == handlerBaseStatus && AddHandled(deviceId, handlerBaseStatus, facts)
      ensures newState in {DEVICE_STATE_DISABLED, DEVICE_STATE_NOTPRESENT, DEVICE_STATE_UNPLUGGED} ==>
        status == handlerBaseStatus && RemoveHandled(deviceId, handlerBaseStatus, facts)
      ensures newState !in {DEVICE_STATE_ACTIVE, DEVICE_STATE_DISABLED, DEVICE_STATE_NOTPRESENT, DEVICE_STATE_UNPLUGGED} ==>
        status == baseStatus && devices == old(devices) && endpointVolumes == old(endpointVolumes)
        && notifications == old(notifications)
      ensures Valid()
    {
      status := baseStatus;
      if newState == DEVICE_STATE_ACTIVE {
        status := OnDeviceAdded(deviceId, handlerBaseStatus, facts);
      } else if newState == DEVICE_STATE_DISABLED || newState == DEVICE_STATE_NOTPRESENT
        || newState == DEVICE_STATE_UNPLUGGED {
        status := OnDeviceRemoved(deviceId, handlerBaseStatus, facts);
      }
    }

    /**
     * OnNotify: refreshes every volume from the enumeration, then tells every observer
     * VolumeChanged once for each container whose render or capture volume differs from
     * before, in container-id order. The status is the base handler's.
     */
    method OnNotify(baseStatus: int, endpoints: seq<Option<EndpointFacts>>) returns (status: int)
      requires Valid()
      modifies this`devices, this`endpointVolumes, this`notifications
      ensures status == baseStatus
      ensures devices == RefreshAll(filter, old(devices), endpoints) && endpointVolumes == old(endpointVolumes)
      ensures notifications ==
        old(notifications) + BroadcastEach(observers, VolumeChanged, ChangedVolumeIds(old(devices), devices))
      ensures Valid()
    {
      var copy := devices;
      RefreshVolumes(endpoints);
      var diff := GetDevicePnPIdsWithChangedVolume(copy, devices);
      for i := 0 to |diff|
        invariant devices == RefreshAll(filter, copy, endpoints) && endpointVolumes == old(endpointVolumes)
        invariant notifications == old(notifications) + BroadcastEach(observers, VolumeChanged, diff[..i])
      {
        BroadcastEachSnoc(observers, VolumeChanged, diff, i);
        RecordInTwoSteps(old(notifications), BroadcastEach(observers, VolumeChanged, diff[..i]),
          Broadcast(observers, VolumeChanged, diff[i]));
        NotifyObservers(VolumeChanged, diff[i]);
      }
      assert diff[..|diff|] == diff;
      return baseStatus;
    }
  }
}
