# Device reconciliation engine of PnPAudioCheck, in Dafny

This project models `ed::audio::DeviceCollection`. That class is the engine behind the audio
controller library. It keeps one record per physical device, keyed by the device's container
("plug-and-play") id. A headset is seen by the platform as two endpoints, one Render and one
Capture, that share a container id. The engine merges them into one `RenderAndCapture` record,
splits the record again when one endpoint goes away, and refreshes the volumes when the platform
reports a change. Observers are told `Discovered`, `Detached` or `VolumeChanged` for a container
id. The model also covers `ed::audio::Device`, the value object that holds a record.

Files and modules:

- `wrappers.dfy` (`Wrappers`): `Option` and `Result`.
- `string_order.dfy` (`StringOrder`): the ordering of `std::wstring` keys, lexicographic on
  characters taken as Unicode code points. A `std::set<std::wstring>` is a strictly increasing sequence. `SortedKeys` walks a `std::map` in key order.
- `name_sets.dfy` (`NameSets`): `Split` and `Merge`, which turn a `/`-joined device name into a
  set of names and back, and `WithPart`, the name update done by a merge.
- `case_insensitive.dfy` (`CaseInsensitive`): `FindSubstrCaseInsensitive`.
- `audio_control.dfy` (`AudioControl`): the exported enums, the `DeviceRecord` value and the
  `Device` class with its constructors, assignments and volume setters.
- `observers.dfy` (`Observers`): the order in which a `std::set` of observer pointers is walked,
  and the calls one broadcast makes.
- `reconcile.dfy` (`Reconcile`): the value-level rules. These are the flow conversion, the volume
  placement, the filter, merge, unmerge, the volume refresh, the rebuild and the volume diff.
- `device_collection.dfy` (`DeviceCollections`): the `DeviceCollection` class. Its fields are the
  device table, the endpoint-volume index, the observer set and a log of observer calls. Its
  methods are the handlers, the rebuild, the refresh and the accessors.
- `merge_laws.dfy` (`MergeLaws`): laws relating add, remove and refresh.
- `scenario.dfy` (`Scenarios`): a headset arriving and leaving, with the events the code fires.

How the platform is represented:

- An endpoint's facts are an `EndpointFacts` record. It holds the endpoint id, container id,
  name, `EDataFlow` code, mute state, volume already scaled to 0..1000, and the volume interface.
- A lookup that fails is `None`. An enumeration is a sequence of such options.
- The status returned by the base `MultipleNotificationClient` handler is a parameter.
  `OnDeviceAdded` and `OnDeviceRemoved` act only when it is `S_OK` (`DeviceCollection.cpp:514`,
  `:621`). `OnNotify` returns its base status whatever it is (`DeviceCollection.cpp:728-743`).
  `OnDeviceStateChanged` does not test its own base status: for ACTIVE, DISABLED, NOTPRESENT and
  UNPLUGGED it returns the status of the `OnDeviceAdded` or `OnDeviceRemoved` it calls, and its
  base status otherwise (`DeviceCollection.cpp:707-726`).
- The observer calls are appended to the `notifications` field in the order they are made.

Behaviour of the code that the model keeps:

- `Detached` fires on every removal that applies. This includes a removal after which the
  container survives as a single-flow record (`DeviceCollection.cpp:652-653`).
  `Scenarios.AddTwiceRemoveTwice` shows both `Detached` calls.
- `Discovered` fires on every applicable arrival, including the second endpoint of a headset that
  is merged into an existing record (`DeviceCollection.cpp:543`).
- Observers are called in increasing pointer order, the iteration order of the
  `std::set<Observer*>` (`DeviceCollection.cpp:458`).
- Only the no-id sentinel is kept out of the table (`DeviceCollection.cpp:498`). An empty container
  id is stored like any other, so `Reconcile.WellKeyed` states only the sentinel exclusion.
- A record whose stored flow equals the removed endpoint's flow is erased as a whole
  (`DeviceCollection.cpp:568-574`). This holds even when that record had merged two endpoints of
  the same flow.
- A merge re-sorts and deduplicates the name parts (`DeviceCollection.cpp:336-340`, with `Split`
  returning an ordered `std::set`, as modelled). A Render
  endpoint named `Speakers/Headphones` merged with a Capture endpoint `Mic` gives the name
  `Headphones/Mic/Speakers`. Removing the Capture endpoint then keeps only the first other part,
  `Headphones` (`DeviceCollection.cpp:599-607`), so the Render endpoint's original name is lost.
  The merge and unmerge laws in `MergeLaws` are therefore stated for names without `/`.

## Model

| member | source | states |
|---|---|---|
| StringOrder.Less | Projects/AudioControllerLib/DeviceCollection.h:74 | definition, no contract: `std::wstring::operator<` as lexicographic order on code points; its properties are the four lemmas below |
| StringOrder.LessIrreflexive | Projects/AudioControllerLib/DeviceCollection.h:74 | no key is below itself under the `std::wstring` order of the device table |
| StringOrder.LessTransitive | Projects/AudioControllerLib/DeviceCollection.h:74 | the key order is transitive |
| StringOrder.LessTotal | Projects/AudioControllerLib/DeviceCollection.h:74 | any two distinct keys are ordered one way or the other |
| StringOrder.LessAsymmetric | Projects/AudioControllerLib/DeviceCollection.h:74 | two keys are never below each other |
| StringOrder.Insert | Projects/AudioControllerLib/DeviceCollection.cpp:336-338 | `std::set::insert`: the result is sorted and holds the old names plus the new one; a name already present leaves the set as it was, otherwise the size grows by one |
| StringOrder.SortedUnique | Projects/AudioControllerLib/DeviceCollection.h:21 | two sorted duplicate-free sequences with the same elements are equal, so an ordered set or a map's key walk is determined by its contents |
| StringOrder.InsertCommutes | Projects/AudioControllerLib/DeviceCollection.cpp:336-338 | inserting two names into a set gives the same set in either order |
| StringOrder.SortedOf | Projects/AudioControllerLib/DeviceCollection.h:21 | the keys of a map in iteration order: sorted, each key once, nothing else |
| StringOrder.SortedKeys | Projects/AudioControllerLib/DeviceCollection.cpp:684 | walking a map's keys yields them sorted, each once |
| NameSets.Tokens | Projects/AudioControllerLib/DeviceCollection.cpp:336 | splitting at the separator gives at least one piece and no piece holds the separator |
| NameSets.ToSet | Projects/AudioControllerLib/DeviceCollection.cpp:336 | the pieces as a set: sorted and with the same elements |
| NameSets.Split | Projects/AudioControllerLib/DeviceCollection.cpp:336 | definition, no contract: the set of the `/`-separated pieces of a name; its properties are SplitOfMerge and SplitOfAtom |
| NameSets.Merge | Projects/AudioControllerLib/DeviceCollection.cpp:340 | definition, no contract: the parts in set order joined by `/`; its inverse is Split (SplitOfMerge) |
| NameSets.SplitOfMerge | Projects/AudioControllerLib/DeviceCollection.cpp:336-340 | splitting a merged non-empty set of separator-free names gives the set back |
| NameSets.SplitOfAtom | Projects/AudioControllerLib/DeviceCollection.cpp:336 | a name without the separator splits into itself alone |
| NameSets.WithPart | Projects/AudioControllerLib/DeviceCollection.cpp:336-340 | for an incoming name without `/`, the merged name's parts are exactly the stored name's parts plus the incoming name, and the name is their `/`-join, each part once, in increasing order |
| NameSets.SplitOfWithPart | Projects/AudioControllerLib/DeviceCollection.cpp:336-340 | for an incoming name without `/`, splitting the merged name gives the stored part set with that name inserted |
| CaseInsensitive.LowerAll | Projects/AudioControllerLib/DeviceCollection.cpp:479 | folding keeps the length and folds each character |
| CaseInsensitive.FindFrom | Projects/AudioControllerLib/DeviceCollection.cpp:479 | true exactly when the pattern matches at some position from `i` on |
| CaseInsensitive.FindSubstrCaseInsensitive | Projects/AudioControllerLib/DeviceCollection.cpp:479 | true exactly when the pattern occurs somewhere in the string with letter case ignored |
| CaseInsensitive.EmptyPatternIsFound | Projects/AudioControllerTests/AudioControllerLibTests.cpp:46 | the empty filter matches every name |
| CaseInsensitive.PatternCaseIsIgnored | Projects/AudioControllerTests/AudioControllerLibTests.cpp:45 | patterns that differ only in case are found in the same names |
| CaseInsensitive.StringCaseIsIgnored | Projects/AudioControllerLib/DeviceCollection.cpp:479 | names that differ only in case contain the same patterns |
| CaseInsensitive.UnitTestCases | Projects/AudioControllerTests/AudioControllerLibTests.cpp:38-49 | the four assertions of the unit test hold |
| AudioControl.Device.Default | Projects/AudioControllerLib/Device.cpp:9-12 | empty id and name, flow None, volumes 0 |
| AudioControl.Device.constructor | Projects/AudioControllerLib/Device.cpp:14-20 | every field as given, and the getters return them |
| AudioControl.Device.Copy | Projects/AudioControllerLib/Device.cpp:22-28 | the copy holds every field of the original |
| AudioControl.Device.Move | Projects/AudioControllerLib/Device.cpp:30-36 | the new object holds every field of the source; the source is left with flow None and volumes 0 |
| AudioControl.Device.CopyAssign | Projects/AudioControllerLib/Device.cpp:39-46 | afterwards this holds every field the source held |
| AudioControl.Device.MoveAssign | Projects/AudioControllerLib/Device.cpp:48-55 | afterwards this holds every field the source held; a distinct source is left with flow None and volumes 0 |
| AudioControl.Device.SetCurrentRenderVolume | Projects/AudioControllerLib/Device.cpp:77-80 | only the render volume changes |
| AudioControl.Device.SetCurrentCaptureVolume | Projects/AudioControllerLib/Device.cpp:77-80 | only the capture volume changes |
| Observers.Least | Projects/AudioControllerLib/DeviceCollection.h:75 | the smallest observer of a non-empty set |
| Observers.Ascending | Projects/AudioControllerLib/DeviceCollection.cpp:458 | the walk of the observer set: each observer once, strictly increasing |
| Observers.AscendingFirst | Projects/AudioControllerLib/DeviceCollection.cpp:458 | the walk starts with the smallest observer |
| Observers.CallsAt | Projects/AudioControllerLib/DeviceCollection.cpp:458-461 | one call per observer of the order, the i-th to the i-th observer |
| Observers.Broadcast | Projects/AudioControllerLib/DeviceCollection.cpp:458-461 | definition, no contract: one call per observer in ascending order; its properties are BroadcastFirst and BroadcastReachesEachObserverOnce |
| Observers.BroadcastFirst | Projects/AudioControllerLib/DeviceCollection.cpp:458-461 | a broadcast calls the smallest observer first, then the others |
| Observers.BroadcastReachesEachObserverOnce | Projects/AudioControllerLib/DeviceCollection.cpp:456-462 | every subscribed observer gets the event once, nobody else gets it, in increasing order |
| Observers.BroadcastEach | Projects/AudioControllerLib/DeviceCollection.cpp:735-740 | definition, no contract: one broadcast per id, in the order of the ids; BroadcastEachSnoc and OnNotify's contract use it |
| Observers.BroadcastEachSnoc | Projects/AudioControllerLib/DeviceCollection.cpp:735-740 | broadcasting for one more id appends that id's broadcast |
| Reconcile.ConvertFromLowLevelFlow | Projects/AudioControllerLib/DeviceCollection.cpp:25-39 | eRender, eCapture and eAll map to Render, Capture and RenderAndCapture, and any other code maps to None, in both directions |
| Reconcile.DeviceFromFacts | Projects/AudioControllerLib/DeviceCollection.cpp:219-247 | an unmuted Render endpoint carries its volume as render volume, an unmuted Capture endpoint as capture volume, every other volume is 0 |
| Reconcile.IsDeviceApplicable | Projects/AudioControllerLib/DeviceCollection.cpp:464-507 | accepted exactly when the flow is Render or both flows are tracked, the name contains the filter ignoring case, and the container id is not the sentinel |
| Reconcile.MergeDeviceWithExistingOneBasedOnPnpIdAndFlow | Projects/AudioControllerLib/DeviceCollection.cpp:305-344 | an absent container id gives the endpoint unchanged; otherwise, for an endpoint name without `/`, the name's parts are exactly the stored parts plus the endpoint name (MergedNameIsJoin adds that the name is their `/`-join, each once, in increasing order); with a different flow the record becomes RenderAndCapture, taking the endpoint's flow volume from the endpoint and the other from the stored record; with the same flow both volumes are the endpoint's |
| Reconcile.MergedNameIsJoin | Projects/AudioControllerLib/DeviceCollection.cpp:336-340 | for an endpoint name without `/`, the merged record's name is the `/`-join of the stored parts with the endpoint name inserted, each part once, in increasing order |
| Reconcile.WithAdded | Projects/AudioControllerLib/DeviceCollection.cpp:529-534 | definition, no contract: the merged record stored under the container id; its properties are AddKeepsWellKeyed and the MergeLaws lemmas |
| Reconcile.FirstOther | Projects/AudioControllerLib/DeviceCollection.cpp:599-607 | the first part that differs from the removed name, or that name when every part equals it |
| Reconcile.CheckRemovalAndUnmergeDeviceFromExistingOneBasedOnPnpIdAndFlow | Projects/AudioControllerLib/DeviceCollection.cpp:550-613 | applies exactly when the container has a record whose flow is the endpoint's or RenderAndCapture; same flow gives flow None; removing Render leaves Capture with render volume 0 and the stored capture volume, and Capture is the mirror; the name is the first other part; when it does not apply the out-record is the endpoint with flow None |
| Reconcile.Unmerged | Projects/AudioControllerLib/DeviceCollection.cpp:557-611 | definition, no contract: the unmerged record when the removal applies, else None; the method above states its cases |
| Reconcile.WithRemoved | Projects/AudioControllerLib/DeviceCollection.cpp:640-651 | definition, no contract: a flow-None record erases the container, any other replaces it; its properties are RemoveKeepsWellKeyed and the MergeLaws lemmas |
| Reconcile.VolumeRefreshed | Projects/AudioControllerLib/DeviceCollection.cpp:433-453 | definition, no contract: a stored container's render or capture volume set from the endpoint; its properties are RefreshAllAt and RefreshIsIdempotent |
| Reconcile.RefreshAll | Projects/AudioControllerLib/DeviceCollection.cpp:411-416 | a refresh keeps the table's key set |
| Reconcile.RefreshAllAt | Projects/AudioControllerLib/DeviceCollection.cpp:433-453 | a refresh never renames or re-flows a record; each volume is the last one written for its container, or unchanged |
| Reconcile.RefreshIsIdempotent | Projects/AudioControllerLib/DeviceCollection.cpp:433-453 | refreshing twice from the same enumeration equals refreshing once |
| Reconcile.RefreshKeepsWellKeyed | Projects/AudioControllerLib/DeviceCollection.cpp:433-453 | a refresh keeps every record under its own id and the sentinel out |
| Reconcile.Registered | Projects/AudioControllerLib/DeviceCollection.cpp:421-431 | definition, no contract: the index and the table after one endpoint is registered |
| Reconcile.RegisterAll | Projects/AudioControllerLib/DeviceCollection.cpp:346-408 | definition, no contract: registering every admitted endpoint of the enumeration in order; its properties are RegisterAllKeys and RegisterAllKeepsWellKeyed |
| Reconcile.RegisterAllKeys | Projects/AudioControllerLib/DeviceCollection.cpp:400-431 | after registering, the table's keys are the old ones plus the admitted endpoints' container ids, and the index's keys the old ones plus their endpoint ids |
| Reconcile.RegisterAllKeepsWellKeyed | Projects/AudioControllerLib/DeviceCollection.cpp:421-431 | registering keeps every record under its own id and the sentinel out |
| Reconcile.AddKeepsWellKeyed | Projects/AudioControllerLib/DeviceCollection.cpp:529-534 | storing an applicable endpoint's merged record keeps every record under its own id and the sentinel out |
| Reconcile.RemoveKeepsWellKeyed | Projects/AudioControllerLib/DeviceCollection.cpp:637-651 | an applying removal keeps every record under its own id and the sentinel out |
| Reconcile.GetDevicePnPIdsWithChangedVolume | Projects/AudioControllerLib/DeviceCollection.cpp:680-705 | the ids present in both snapshots whose render or capture volume differs, each once, in key order, and no other id |
| Reconcile.AppendKeepsSorted | Projects/AudioControllerLib/DeviceCollection.cpp:684-701 | appending the current key of the sorted walk keeps the diff sorted |
| DeviceCollections.DeviceCollection.constructor | Projects/AudioControllerLib/DeviceCollection.cpp:49-58 | a new collection keeps its filter and starts with no device, no volume interface and no observer |
| DeviceCollections.DeviceCollection.GetSize | Projects/AudioControllerLib/DeviceCollection.cpp:65-68 | the number of distinct container ids |
| DeviceCollections.DeviceCollection.CreateItem | Projects/AudioControllerLib/DeviceCollection.cpp:70-85 | succeeds exactly when the number is below GetSize, giving the record at that position in key order; otherwise the too-big error, so the "not found" error at line 84 can never be thrown |
| DeviceCollections.DeviceCollection.Subscribe | Projects/AudioControllerLib/DeviceCollection.cpp:87-90 | adds the observer to the set, so a second subscription changes nothing |
| DeviceCollections.DeviceCollection.Unsubscribe | Projects/AudioControllerLib/DeviceCollection.cpp:92-95 | removes the observer, so removing an unknown one changes nothing |
| DeviceCollections.DeviceCollection.NotifyObservers | Projects/AudioControllerLib/DeviceCollection.cpp:456-462 | appends exactly one broadcast of the event to the log |
| DeviceCollections.DeviceCollection.RegisterDevice | Projects/AudioControllerLib/DeviceCollection.cpp:421-431 | indexes the volume interface under the endpoint id and stores the merged record under the container id, keeping the table well keyed |
| DeviceCollections.DeviceCollection.UpdateDeviceVolume | Projects/AudioControllerLib/DeviceCollection.cpp:433-453 | writes the render volume for a Render endpoint and the capture volume otherwise, into an existing record only |
| DeviceCollections.DeviceCollection.ProcessActiveDeviceList | Projects/AudioControllerLib/DeviceCollection.cpp:346-397 | skips failed and rejected endpoints and applies the step to the rest in enumeration order |
| DeviceCollections.DeviceCollection.RecreateActiveDeviceList | Projects/AudioControllerLib/DeviceCollection.cpp:400-409 | empties the table and the index, then registers the enumeration; the result does not depend on the earlier contents |
| DeviceCollections.DeviceCollection.ResetContent | Projects/AudioControllerLib/DeviceCollection.cpp:60-63 | rebuilds as RecreateActiveDeviceList does |
| DeviceCollections.DeviceCollection.RefreshVolumes | Projects/AudioControllerLib/DeviceCollection.cpp:411-416 | the table becomes the refresh of the old one, and the index is unchanged |
| DeviceCollections.DeviceCollection.UnregisterAndRemoveEndpointsVolumes | Projects/AudioControllerLib/DeviceCollection.cpp:288-303 | drops the endpoint id from the index, if present |
| DeviceCollections.DeviceCollection.OnDeviceAdded | Projects/AudioControllerLib/DeviceCollection.cpp:509-548 | returns the base status; on S_OK with readable facts and an applicable endpoint, it stores the merged record, indexes the endpoint and broadcasts Discovered once, also for a merge; otherwise nothing changes |
| DeviceCollections.DeviceCollection.OnDeviceRemoved | Projects/AudioControllerLib/DeviceCollection.cpp:616-659 | returns the base status; when the removal applies it erases or replaces the record, drops the endpoint id and broadcasts Detached once, also when the container survives; otherwise nothing changes |
| DeviceCollections.DeviceCollection.OnDeviceStateChanged | Projects/AudioControllerLib/DeviceCollection.cpp:707-726 | ACTIVE is an addition, DISABLED, NOTPRESENT and UNPLUGGED a removal, with that handler's status; any other state changes nothing and returns the base status |
| DeviceCollections.DeviceCollection.OnNotify | Projects/AudioControllerLib/DeviceCollection.cpp:728-743 | refreshes the table and broadcasts VolumeChanged once per container whose volume changed, in key order; returns the base status |
| MergeLaws.WithPartCommutes | Projects/AudioControllerLib/DeviceCollection.cpp:336-340 | for two names without `/`, the merged name does not depend on their order, and it splits into the set of both |
| MergeLaws.AddOrderDoesNotMatter | Projects/AudioControllerLib/DeviceCollection.cpp:305-344 | for endpoint names without `/` and whatever record the container had: adding its Render and Capture endpoints in either order gives the same table, with a RenderAndCapture record holding the Render endpoint's render volume and the Capture endpoint's capture volume |
| MergeLaws.AddOrderIntoRecord | Projects/AudioControllerLib/DeviceCollection.cpp:305-344 | the same, for a container that already has a record |
| MergeLaws.AddOrderIntoNewContainer | Projects/AudioControllerLib/DeviceCollection.cpp:305-344 | the same, for a container with no record yet |
| MergeLaws.RenderThenCapture | Projects/AudioControllerLib/DeviceCollection.cpp:305-344 | a Render and then a Capture endpoint merged into an existing record give RenderAndCapture with the Render volume, the Capture volume and both names inserted |
| MergeLaws.CaptureThenRender | Projects/AudioControllerLib/DeviceCollection.cpp:305-344 | the other order gives the same flow and volumes, with the names inserted the other way round |
| MergeLaws.NamesCommute | Projects/AudioControllerLib/DeviceCollection.cpp:336-340 | inserting two names without `/` into a stored name gives the same name in either order |
| MergeLaws.MergedPair | Projects/AudioControllerLib/DeviceCollection.cpp:305-344 | for a container with no record and endpoint names without `/`: the record a Render and then a Capture endpoint merge into |
| MergeLaws.KeptName | Projects/AudioControllerLib/DeviceCollection.cpp:599-607 | for two names without `/`, removing either name of their merged name keeps the other |
| MergeLaws.RemoveCaptureUndoesMerge | Projects/AudioControllerLib/DeviceCollection.cpp:576-609 | for a container with no record, endpoint names without `/` and a Render endpoint whose capture volume is 0, as for any endpoint: removing the Capture endpoint of the merged headset restores the table with only the Render endpoint added |
| MergeLaws.RemoveRenderUndoesMerge | Projects/AudioControllerLib/DeviceCollection.cpp:576-609 | for a container with no record, endpoint names without `/` and a Capture endpoint whose render volume is 0, as for any endpoint: removing the Render endpoint of the merged headset restores the table with only the Capture endpoint added |
| MergeLaws.ReAddRenderRestoresMerge | Projects/AudioControllerLib/DeviceCollection.cpp:305-344 | for a container with no record, endpoint names without `/` and a Capture endpoint whose render volume is 0: removing the Render endpoint and adding it again gives back the merged table |
| MergeLaws.RemoveUndoesFirstAdd | Projects/AudioControllerLib/DeviceCollection.cpp:568-574 | removing the only endpoint of a container restores the table from before its addition |
| MergeLaws.SecondRefreshReportsNothing | Projects/AudioControllerLib/DeviceCollection.cpp:728-743 | a second refresh from the same enumeration reports no changed volume |
| Scenarios.BroadcastToOne | Projects/AudioControllerLib/DeviceCollection.cpp:456-462 | with one observer, a broadcast is one call |
| Scenarios.BothAdmitted | Projects/AudioControllerLib/DeviceCollection.cpp:464-507 | both headset endpoints pass an empty filter that tracks both flows |
| Scenarios.ArriveBoth | Projects/AudioControllerLib/DeviceCollection.cpp:509-548 | both arrivals of a headset are announced with Discovered, and they leave one RenderAndCapture record |
| Scenarios.AddTwiceRemoveTwice | Projects/AudioControllerLib/DeviceCollection.cpp:637-654 | the table after each of the four events, and the four events fired: Discovered, Discovered, Detached, Detached |

## Left out

- COM and WASAPI are not modelled. This covers enumerator creation, endpoint enumeration and lookup, property-store reads, GUID formatting, volume-interface activation, and registering or unregistering change notifications. They are replaced by the `EndpointFacts` inputs. A volume interface is an opaque number.
- The `"UnknownDeviceName"` fallback for an endpoint without a friendly name is not modelled. The name is part of the facts.
- Float volume scaling with `lround(currVolume * 1000.0f)` is not modelled. The facts carry the scaled 0..1000 integer.
- Logging and tracing (`LOG_INFO`, `TraceIt`, `TraceItDebug`) are not modelled.
- The debug `assert(SUCCEEDED(hr))` checks are not modelled.
- Concurrency is not modelled. The platform calls the handlers from its own threads without a lock, and the model assumes one sequential caller.
- The destructor and `UnregisterAllEndpointsVolumes` are not modelled. They only release COM objects.
- The C ABI, the CLI, the WPF client and the factory are not part of this model.
- The collection cannot be copied or moved (`DISALLOW_COPY_MOVE`). The Dafny class is a reference with no copy operation, so there is nothing to state.
- `Split`, `Merge` and `FindSubstrCaseInsensitive` are given concrete definitions here, because their source is not part of this model. `Split` deduplicates and sorts the parts, as a `std::set<std::wstring>` does.
- CaseInsensitive.FindSubstrCaseInsensitive: folds only the ASCII letters A-Z. Locale-dependent folding of other characters is not modelled.
- Reconcile.MergeDeviceWithExistingOneBasedOnPnpIdAndFlow: the name-set statement is given only for an incoming name without `/`. Splitting a name that already holds the separator yields several parts.
- MergeLaws.AddOrderDoesNotMatter: stated only for names without `/`.
- MergeLaws.RemoveCaptureUndoesMerge, MergeLaws.RemoveRenderUndoesMerge, MergeLaws.ReAddRenderRestoresMerge, MergeLaws.MergedPair, MergeLaws.KeptName and MergeLaws.WithPartCommutes: stated only for names without `/` (and, except the last two, a container with no record yet). With `/` in a name the code re-sorts the parts and an unmerge keeps only one of them.
- StringOrder.Less: strings are sequences of Unicode code points, while `std::wstring` on Windows compares UTF-16 code units. The two orders agree only inside the Basic Multilingual Plane (U+0000 to U+FFFF). Above it, key order, `CreateItem` numbering, the order of `VolumeChanged` events and of merged name parts can differ. Lone surrogates cannot be represented.
- Device.cpp has one volume field and `SetVolume`. The library's interface (`Projects/AudioController/AudioControlInterface.h:68-78`) and `DeviceCollection.cpp` use a render and a capture volume, so the `Device` class carries both, with one setter each.
- AudioControl.Device.Move: the strings left in the moved-from object are unspecified. The model leaves them arbitrary.
- The record returned by `CreateItem` is a value. `std::unique_ptr` ownership is not modelled.
