/** The cache updaters of the zFCP queries: when the installer reports that a
    zFCP controller or disk was added, removed or changed, the cached list is
    replaced by a new list computed from the previous one. Controllers are
    identified by `id`, disks by `name`. */
module Zfcp {
  import opened Lists

  datatype ZFCPController = ZFCPController(id: string, channel: string, lunScan: bool, active: bool)

  datatype ZFCPDisk = ZFCPDisk(name: string, channel: string, wwpn: string, lun: string)

  /** The events the two listeners look at; any other event type is `Other`. */
  datatype ZFCPEvent =
    | ZFCPControllerAdded(controller: ZFCPController)
    | ZFCPControllerRemoved(controller: ZFCPController)
    | ZFCPControllerChanged(controller: ZFCPController)
    | ZFCPDiskAdded(disk: ZFCPDisk)
    | ZFCPDiskRemoved(disk: ZFCPDisk)
    | ZFCPDiskChanged(disk: ZFCPDisk)
    | Other(eventType: string)

  function ControllerId(c: ZFCPController): string { c.id }

  function DiskName(d: ZFCPDisk): string { d.name }

  predicate IsControllerEvent(event: ZFCPEvent) {
    event.ZFCPControllerAdded? || event.ZFCPControllerRemoved? || event.ZFCPControllerChanged?
  }

  predicate IsDiskEvent(event: ZFCPEvent) {
    event.ZFCPDiskAdded? || event.ZFCPDiskRemoved? || event.ZFCPDiskChanged?
  }

  /** The updater `useZFCPControllersChanges` hands to `setQueryData`. */
  function UpdateControllers(prev: seq<ZFCPController>, event: ZFCPEvent): (r: seq<ZFCPController>)
    ensures event.ZFCPControllerAdded? ==> r == prev + [event.controller]
    ensures event.ZFCPControllerRemoved? ==> |r| <= |prev| && r == RemoveKey(prev, ControllerId, event.controller.id)
    ensures event.ZFCPControllerRemoved? ==>
      && (forall i :: 0 <= i < |r| ==> r[i].id != event.controller.id && r[i] in prev)
      && (forall i :: 0 <= i < |prev| && prev[i].id != event.controller.id ==> prev[i] in r)
    ensures event.ZFCPControllerChanged? ==> |r| == |prev|
    ensures !IsControllerEvent(event) ==> r == prev
  {
    match event
    case ZFCPControllerAdded(device) => prev + [device]
    case ZFCPControllerRemoved(device) => RemoveKey(prev, ControllerId, device.id)
    case ZFCPControllerChanged(device) => ReplaceFirst(prev, ControllerId, device)
    case _ => prev
  }

  /** The updater `useZFCPDisksChanges` hands to `setQueryData`. */
  function UpdateDisks(prev: seq<ZFCPDisk>, event: ZFCPEvent): (r: seq<ZFCPDisk>)
    ensures event.ZFCPDiskAdded? ==> r == prev + [event.disk]
    ensures event.ZFCPDiskRemoved? ==> |r| <= |prev| && r == RemoveKey(prev, DiskName, event.disk.name)
    ensures event.ZFCPDiskRemoved? ==>
      && (forall i :: 0 <= i < |r| ==> r[i].name != event.disk.name && r[i] in prev)
      && (forall i :: 0 <= i < |prev| && prev[i].name != event.disk.name ==> prev[i] in r)
    ensures event.ZFCPDiskChanged? ==> |r| == |prev|
    ensures !IsDiskEvent(event) ==> r == prev
  {
    match event
    case ZFCPDiskAdded(device) => prev + [device]
    case ZFCPDiskRemoved(device) => RemoveKey(prev, DiskName, device.name)
    case ZFCPDiskChanged(device) => ReplaceFirst(prev, DiskName, device)
    case _ => prev
  }

  /** A removal keeps the surviving controllers in their order: removing from
      two halves and joining is removing from the whole. */
  lemma {:induction false} ControllerRemovedKeepsOrder(a: seq<ZFCPController>, b: seq<ZFCPController>, device: ZFCPController)
    ensures UpdateControllers(a + b, ZFCPControllerRemoved(device))
      == UpdateControllers(a, ZFCPControllerRemoved(device)) + UpdateControllers(b, ZFCPControllerRemoved(device))
  {
    RemoveKeyAppend(a, b, ControllerId, device.id);
  }

  /** A change replaces the first controller with the changed one's id and
      leaves every other position as it was. */
  lemma ControllerChangedReplacesFirst(prev: seq<ZFCPController>, device: ZFCPController, i: nat)
    requires i < |prev| && prev[i].id == device.id
    requires forall j :: 0 <= j < i ==> prev[j].id != device.id
    ensures |UpdateControllers(prev, ZFCPControllerChanged(device))| == |prev|
    ensures UpdateControllers(prev, ZFCPControllerChanged(device))[i] == device
    ensures forall j :: 0 <= j < |prev| && j != i ==> UpdateControllers(prev, ZFCPControllerChanged(device))[j] == prev[j]
  {
    assert FindIndex(prev, ControllerId, device.id) == i;
  }

  /** A removal keeps the surviving disks in their order. */
  lemma {:induction false} DiskRemovedKeepsOrder(a: seq<ZFCPDisk>, b: seq<ZFCPDisk>, device: ZFCPDisk)
    ensures UpdateDisks(a + b, ZFCPDiskRemoved(device))
      == UpdateDisks(a, ZFCPDiskRemoved(device)) + UpdateDisks(b, ZFCPDiskRemoved(device))
  {
    RemoveKeyAppend(a, b, DiskName, device.name);
  }

  /** A change replaces the first disk with the changed one's name and leaves
      every other position as it was. */
  lemma DiskChangedReplacesFirst(prev: seq<ZFCPDisk>, device: ZFCPDisk, i: nat)
    requires i < |prev| && prev[i].name == device.name
    requires forall j :: 0 <= j < i ==> prev[j].name != device.name
    ensures |UpdateDisks(prev, ZFCPDiskChanged(device))| == |prev|
    ensures UpdateDisks(prev, ZFCPDiskChanged(device))[i] == device
    ensures forall j :: 0 <= j < |prev| && j != i ==> UpdateDisks(prev, ZFCPDiskChanged(device))[j] == prev[j]
  {
    assert FindIndex(prev, DiskName, device.name) == i;
  }

  /** Removing a controller that is not in the cache leaves it as it was. */
  lemma {:induction false} RemovingUnknownControllerChangesNothing(prev: seq<ZFCPController>, device: ZFCPController)
    requires forall i :: 0 <= i < |prev| ==> prev[i].id != device.id
    ensures UpdateControllers(prev, ZFCPControllerRemoved(device)) == prev
  {
    RemoveAbsentKey(prev, ControllerId, device.id);
  }

  /** Removing a disk that is not in the cache leaves it as it was. */
  lemma {:induction false} RemovingUnknownDiskChangesNothing(prev: seq<ZFCPDisk>, device: ZFCPDisk)
    requires forall i :: 0 <= i < |prev| ==> prev[i].name != device.name
    ensures UpdateDisks(prev, ZFCPDiskRemoved(device)) == prev
  {
    RemoveAbsentKey(prev, DiskName, device.name);
  }
}
