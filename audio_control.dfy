/**
 * The types the audio-control library exports (AudioControlInterface.h) and the Device
 * object that implements its device interface (Device.cpp), carrying both a render and a
 * capture volume.
 */
module AudioControl {

  /** uint16_t: a volume on the 0..1000 scale is stored in one. */
  type UInt16 = x: int | 0 <= x < 0x1_0000

  /** DeviceFlowEnum. */
  datatype DeviceFlowEnum = None | Render | Capture | RenderAndCapture

  /** DeviceCollectionEvent: the kinds of change an observer is told about. */
  datatype DeviceCollectionEvent = None | Discovered | Detached | VolumeChanged

  /** The value a Device holds; a copy of a Device is exactly this value. */
  datatype DeviceRecord = DeviceRecord(
    pnpId: string,
    name: string,
    flow: DeviceFlowEnum,
    renderVolume: UInt16,
    captureVolume: UInt16)

  /** A Device object: its fields change only through assignment, moves and the volume setters. */
  class Device {
    var pnpGuid: string
    var name: string
    var flow: DeviceFlowEnum
    var renderVolume: UInt16
    var captureVolume: UInt16

    function Value(): DeviceRecord
      reads this
    {
      DeviceRecord(pnpGuid, name, flow, renderVolume, captureVolume)
    }

    function GetPnpId(): string reads this { pnpGuid }
    function GetName(): string reads this { name }
    function GetFlow(): DeviceFlowEnum reads this { flow }
    function GetCurrentRenderVolume(): UInt16 reads this { renderVolume }
    function GetCurrentCaptureVolume(): UInt16 reads this { captureVolume }

    /** Device(): no id, no name, no flow, silent. */
    constructor Default()
      ensures GetPnpId() == "" && GetName() == "" && GetFlow() == DeviceFlowEnum.None
      ensures GetCurrentRenderVolume() == 0 && GetCurrentCaptureVolume() == 0
    {
      pnpGuid, name, flow := "", "", DeviceFlowEnum.None;
      renderVolume, captureVolume := 0, 0;
    }

    /** The field constructor keeps every argument as given; the getters return them. */
    constructor (pnpGuid: string, name: string, flow: DeviceFlowEnum, renderVolume: UInt16, captureVolume: UInt16)
      ensures GetPnpId() == pnpGuid && GetName() == name && GetFlow() == flow
      ensures GetCurrentRenderVolume() == renderVolume && GetCurrentCaptureVolume() == captureVolume
    {
      this.pnpGuid, this.name, this.flow := pnpGuid, name, flow;
      this.renderVolume, this.captureVolume := renderVolume, captureVolume;
    }

    /** The copy constructor reproduces every field and leaves the original alone. */
    constructor Copy(toCopy: Device)
      ensures Value() == toCopy.Value()
    {
      pnpGuid, name, flow := toCopy.pnpGuid, toCopy.name, toCopy.flow;
      renderVolume, captureVolume := toCopy.renderVolume, toCopy.captureVolume;
    }

    /**
     * The move constructor takes every field. The source is left with no flow and zero
     * volumes; its moved-from strings are valid but unspecified.
     */
    constructor Move(toMove: Device)
      modifies toMove
      ensures Value() == old(toMove.Value())
      ensures toMove.GetFlow() == DeviceFlowEnum.None
      ensures toMove.GetCurrentRenderVolume() == 0 && toMove.GetCurrentCaptureVolume() == 0
    {
      pnpGuid, name, flow := toMove.pnpGuid, toMove.name, toMove.flow;
      renderVolume, captureVolume := toMove.renderVolume, toMove.captureVolume;
      toMove.pnpGuid := *;
      toMove.name := *;
      toMove.flow := DeviceFlowEnum.None;
      toMove.renderVolume, toMove.captureVolume := 0, 0;
    }

    /** Copy assignment: afterwards this holds what toCopy held (also when both are the same object). */
    method CopyAssign(toCopy: Device)
      modifies this
      ensures Value() == old(toCopy.Value())
    {
      pnpGuid, name, flow := toCopy.pnpGuid, toCopy.name, toCopy.flow;
      renderVolume, captureVolume := toCopy.renderVolume, toCopy.captureVolume;
    }

    /**
     * Move assignment: afterwards this holds what toMove held. A distinct source is left
     * with no flow and zero volumes, its strings unspecified; self-assignment changes nothing.
     */
    method MoveAssign(toMove: Device)
      modifies this, toMove
      ensures Value() == old(toMove.Value())
      ensures toMove != this ==> toMove.GetFlow() == DeviceFlowEnum.None
      ensures toMove != this ==> toMove.GetCurrentRenderVolume() == 0 && toMove.GetCurrentCaptureVolume() == 0
    {
      var moved := toMove.Value();
      toMove.pnpGuid := *;
      toMove.name := *;
      toMove.flow := DeviceFlowEnum.None;
      toMove.renderVolume, toMove.captureVolume := 0, 0;
      pnpGuid, name, flow := moved.pnpId, moved.name, moved.flow;
      renderVolume, captureVolume := moved.renderVolume, moved.captureVolume;
    }

    /** Changes the render volume and nothing else. */
    method SetCurrentRenderVolume(volume: UInt16)
      modifies this
      ensures Value() == old(Value()).(renderVolume := volume)
    {
      renderVolume := volume;
    }

    /** Changes the capture volume and nothing else. */
    method SetCurrentCaptureVolume(volume: UInt16)
      modifies this
      ensures Value() == old(Value()).(captureVolume := volume)
    {
      captureVolume := volume;
    }
  }
}
