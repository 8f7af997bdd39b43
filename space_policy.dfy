/** The custom space policy page of a drive: which action (delete, resize if
    needed, keep) applies to each of the drive's devices. The actions start
    from the drive's partitions in the config model and are then changed one
    device at a time. */
module SpacePolicy {
  import opened Wrappers
  import opened Lists

  /** The value of a space policy action: "delete", "resizeIfNeeded" or "keep". */
  datatype SpaceAction = Delete | ResizeIfNeeded | Keep

  datatype SpacePolicyAction = SpacePolicyAction(deviceName: string, value: SpaceAction)

  /** A partition of the config model. Its `delete` and `resizeIfNeeded`
      flags are optional; an absent flag reads as unset. */
  datatype Partition = Partition(name: Option<string>, delete: bool, resizeIfNeeded: bool)

  /** A child of the drive in the table: a storage device or a free slot,
      which `toStorageDevice` turns into nothing. */
  datatype Device = StorageDevice(name: string) | PartitionSlot

  function PartitionName(p: Partition): Option<string> { p.name }

  function ActionDeviceName(a: SpacePolicyAction): string { a.deviceName }

  /** `partitionAction`: delete wins over resize; neither flag, no action. */
  function PartitionAction(partition: Partition): (r: Option<SpaceAction>)
    ensures r == Some(Delete) <==> partition.delete
    ensures r == Some(ResizeIfNeeded) <==> !partition.delete && partition.resizeIfNeeded
    ensures r.None? <==> !partition.delete && !partition.resizeIfNeeded
    ensures r != Some(Keep)
  {
    if partition.delete then Some(Delete)
    else if partition.resizeIfNeeded then Some(ResizeIfNeeded)
    else None
  }

  /** `partitionDeviceAction`: the action of the drive's first partition named
      like the device, if the drive lists partitions and one has that name. */
  function PartitionDeviceAction(partitions: Option<seq<Partition>>, deviceName: string): (r: Option<SpaceAction>)
    ensures partitions.None? ==> r.None?
    ensures r != Some(Keep)
    ensures partitions.Some? && (forall i :: 0 <= i < |partitions.value| ==> partitions.value[i].name != Some(deviceName)) ==> r.None?
    ensures forall i :: partitions.Some? && IsFirstWithKey(partitions.value, PartitionName, Some(deviceName), i) ==>
      r == PartitionAction(partitions.value[i])
  {
    match partitions
    case None => None
    case Some(ps) =>
      match Find(ps, PartitionName, Some(deviceName))
      case None => None
      case Some(partition) => PartitionAction(partition)
  }

  /** The initial `actions`: the children that are storage devices with a
      partition action, in order, each paired with that action. */
  function InitialActions(children: seq<Device>, partitions: Option<seq<Partition>>): (r: seq<SpacePolicyAction>)
    ensures |r| <= |children|
    ensures forall i :: 0 <= i < |r| ==>
      StorageDevice(r[i].deviceName) in children && PartitionDeviceAction(partitions, r[i].deviceName) == Some(r[i].value)
    ensures forall j :: 0 <= j < |children| && children[j].StorageDevice? && PartitionDeviceAction(partitions, children[j].name).Some? ==>
      SpacePolicyAction(children[j].name, PartitionDeviceAction(partitions, children[j].name).value) in r
    ensures forall i :: 0 <= i < |r| ==> r[i].value != Keep
  {
    if children == [] then []
    else
      var rest := InitialActions(children[1..], partitions);
      match children[0]
      case PartitionSlot => rest
      case StorageDevice(name) =>
        match PartitionDeviceAction(partitions, name)
        case None => rest
        case Some(action) => [SpacePolicyAction(name, action)] + rest
  }

  /** The initial list follows the children's order, one entry per qualifying
      child: building it for two runs of children and joining the results is
      building it for the whole. */
  lemma {:induction false} InitialActionsAppend(a: seq<Device>, b: seq<Device>, partitions: Option<seq<Partition>>)
    ensures InitialActions(a + b, partitions) == InitialActions(a, partitions) + InitialActions(b, partitions)
  {
    if a == [] {
      assert a + b == b;
    } else {
      assert (a + b)[1..] == a[1..] + b;
      InitialActionsAppend(a[1..], b, partitions);
    }
  }

  /** A single child contributes exactly its own entry, if it has an action. */
  lemma InitialActionsOfOne(device: Device, partitions: Option<seq<Partition>>)
    ensures device.PartitionSlot? ==> InitialActions([device], partitions) == []
    ensures device.StorageDevice? && PartitionDeviceAction(partitions, device.name).None? ==>
      InitialActions([device], partitions) == []
    ensures device.StorageDevice? && PartitionDeviceAction(partitions, device.name).Some? ==>
      InitialActions([device], partitions) == [SpacePolicyAction(device.name, PartitionDeviceAction(partitions, device.name).value)]
  {
    assert [device][1..] == [];
  }

  /** `changeActions`' new list: every other device's action, then the given one. */
  function WithAction(actions: seq<SpacePolicyAction>, action: SpacePolicyAction): (r: seq<SpacePolicyAction>)
    ensures |r| >= 1 && r[|r| - 1] == action
    ensures forall i :: 0 <= i < |r| - 1 ==> r[i].deviceName != action.deviceName && r[i] in actions
    ensures forall i :: 0 <= i < |actions| && actions[i].deviceName != action.deviceName ==> actions[i] in r
  {
    RemoveKey(actions, ActionDeviceName, action.deviceName) + [action]
  }

  /** If no device had two actions before a change, none has two after it. */
  lemma WithActionKeepsNamesUnique(actions: seq<SpacePolicyAction>, action: SpacePolicyAction)
    requires UniqueKeys(actions, ActionDeviceName)
    ensures UniqueKeys(WithAction(actions, action), ActionDeviceName)
  {
    RemoveKeyKeepsUniqueKeys(actions, ActionDeviceName, action.deviceName);
  }

  /** Changing a device's action keeps the other devices' actions in their
      order: what precedes the new entry is the old list without that device,
      and that removal distributes over any split of the old list. */
  lemma {:induction false} WithActionKeepsOrder(a: seq<SpacePolicyAction>, b: seq<SpacePolicyAction>, action: SpacePolicyAction)
    ensures WithAction(a + b, action)
      == RemoveKey(a, ActionDeviceName, action.deviceName) + WithAction(b, action)
  {
    RemoveKeyAppend(a, b, ActionDeviceName, action.deviceName);
  }

  /** The page's state: the list of actions kept with `useState`. */
  class SpacePolicySelection {
    var actions: seq<SpacePolicyAction>

    constructor (children: seq<Device>, partitions: Option<seq<Partition>>)
      ensures actions == InitialActions(children, partitions)
    {
      actions := InitialActions(children, partitions);
    }

    /** `deviceAction`: a free slot keeps; a device gets the value of its
        first recorded action, or keeps when it has none. */
    function DeviceAction(device: Device): (r: SpaceAction)
      reads this
      ensures device.PartitionSlot? ==> r == Keep
      ensures device.StorageDevice? && (forall i :: 0 <= i < |actions| ==> actions[i].deviceName != device.name) ==> r == Keep
      ensures device.StorageDevice? ==>
        forall i :: IsFirstWithKey(actions, ActionDeviceName, device.name, i) ==> r == actions[i].value
    {
      match device
      case PartitionSlot => Keep
      case StorageDevice(name) =>
        match Find(actions, ActionDeviceName, name)
        case None => Keep
        case Some(action) => action.value
    }

    /** `changeActions`: filter out the device's entry, push the new one and
        store the result. */
    method ChangeActions(action: SpacePolicyAction)
      modifies this
      ensures actions == WithAction(old(actions), action)
      ensures DeviceAction(StorageDevice(action.deviceName)) == action.value
    {
      var spaceActions := RemoveKey(actions, ActionDeviceName, action.deviceName);
      spaceActions := spaceActions + [action];
      actions := spaceActions;
    }
  }
}
