/** The helpers behind the proposal's volume table: adding, editing,
    deleting and resetting the list of volumes (each change is handed to the
    `onChange` callback as a new list), the actions a row offers and the size
    text a row shows. Sizes arrive already formatted by `deviceSize`. */
module ProposalVolumes {
  import opened Wrappers
  import opened Lists

  datatype Volume = Volume(
    mountPoint: string,
    optional: bool,
    minSize: Option<string>,
    maxSize: Option<string>,
    adaptiveSizes: bool,
    fixedSizeLimits: bool,
    snapshotsAffectSizes: bool,
    sizeRelevantVolumes: Option<seq<string>>)

  /** The `onChange` property: the default `noop`, or a callback. */
  datatype OnChange = Noop | Callback

  datatype VolumeAction = Edit | Delete

  /** The items of the hint on auto-calculated limits. */
  datatype HintItem = SnapshotsItem | OtherVolumesItem(mountPoints: seq<string>)

  function MountPoint(v: Volume): string { v.mountPoint }

  /** `addVolume`: the list handed to `onChange`, or nothing when `onChange`
      is `noop`. */
  function AddVolume(volumes: seq<Volume>, onChange: OnChange, volume: Volume): (r: Option<seq<Volume>>)
    ensures r.None? <==> onChange == Noop
    ensures r.Some? ==> |r.value| == |volumes| + 1 && r.value[..|volumes|] == volumes && r.value[|volumes|] == volume
  {
    if onChange == Noop then None else Some(volumes + [volume])
  }

  /** `resetVolumes`: the empty list, or nothing when `onChange` is `noop`. */
  function ResetVolumes(onChange: OnChange): (r: Option<seq<Volume>>)
    ensures r.None? <==> onChange == Noop
    ensures r.Some? ==> r.value == []
  {
    if onChange == Noop then None else Some([])
  }

  /** `deleteVolume`: every volume with the deleted one's mount point goes,
      the others stay in their order. */
  function DeleteVolume(volumes: seq<Volume>, volume: Volume): (r: seq<Volume>)
    ensures |r| <= |volumes| && r == RemoveKey(volumes, MountPoint, volume.mountPoint)
    ensures forall i :: 0 <= i < |r| ==> r[i].mountPoint != volume.mountPoint && r[i] in volumes
    ensures forall i :: 0 <= i < |volumes| && volumes[i].mountPoint != volume.mountPoint ==> volumes[i] in r
  {
    RemoveKey(volumes, MountPoint, volume.mountPoint)
  }

  /** Deleting keeps the order of the remaining volumes. */
  lemma {:induction false} DeleteVolumeKeepsOrder(a: seq<Volume>, b: seq<Volume>, volume: Volume)
    ensures DeleteVolume(a + b, volume) == DeleteVolume(a, volume) + DeleteVolume(b, volume)
  {
    RemoveKeyAppend(a, b, MountPoint, volume.mountPoint);
  }

  /** Deleting a mount point that no volume has leaves the list as it was,
      so no volume is ever listed twice by a delete. */
  lemma {:induction false} DeletingUnknownVolumeChangesNothing(volumes: seq<Volume>, volume: Volume)
    requires forall i :: 0 <= i < |volumes| ==> volumes[i].mountPoint != volume.mountPoint
    ensures DeleteVolume(volumes, volume) == volumes
  {
    RemoveAbsentKey(volumes, MountPoint, volume.mountPoint);
  }

  /** `editVolume`: copy the list and overwrite the first volume with the
      edited one's mount point. */
  method EditVolume(volumes: seq<Volume>, volume: Volume) returns (newVolumes: seq<Volume>)
    ensures newVolumes == ReplaceFirst(volumes, MountPoint, volume)
    ensures |newVolumes| == |volumes|
    ensures forall i :: IsFirstWithKey(volumes, MountPoint, volume.mountPoint, i) ==>
      newVolumes[i] == volume && forall j :: 0 <= j < |volumes| && j != i ==> newVolumes[j] == volumes[j]
    ensures (forall i :: 0 <= i < |volumes| ==> volumes[i].mountPoint != volume.mountPoint) ==> newVolumes == volumes
  {
    var index := FindIndex(volumes, MountPoint, volume.mountPoint);
    var copy := new Volume[|volumes|](i requires 0 <= i < |volumes| => volumes[i]);
    if index != -1 {
      copy[index] := volume;
    }
    newVolumes := copy[..];
    assert index != -1 ==> newVolumes == volumes[index := volume];
    forall i | IsFirstWithKey(volumes, MountPoint, volume.mountPoint, i)
      ensures index == i
    {
    }
  }

  /** The actions of a row: edit always, delete only for optional volumes. */
  function VolumeActions(volume: Volume): (r: seq<VolumeAction>)
    ensures |r| == (if volume.optional then 2 else 1) && r[0] == Edit
    ensures Delete in r <==> volume.optional
  {
    if volume.optional then [Edit, Delete] else [Edit]
  }

  /** JavaScript truthiness of an optional string. */
  predicate Truthy(s: Option<string>) {
    s.Some? && s.value != ""
  }

  /** The size text of `SizeLimits`: "min - max" when both are set and
      differ, "At least min" when there is no maximum, the minimum otherwise. */
  function SizeLabel(minSize: Option<string>, maxSize: Option<string>): (r: Option<string>)
    ensures maxSize.None? ==> r == Some("At least " + Interpolate(minSize))
    ensures maxSize.Some? && Truthy(minSize) && Truthy(maxSize) && minSize != maxSize ==>
      r == Some(minSize.value + " - " + maxSize.value)
    ensures maxSize.Some? && !(Truthy(minSize) && Truthy(maxSize) && minSize != maxSize) ==> r == minSize
  {
    var range := if Truthy(minSize) && Truthy(maxSize) && minSize != maxSize then Some(minSize.value + " - " + maxSize.value) else minSize;
    if maxSize.None? then Some("At least " + Interpolate(minSize)) else range
  }

  /** The label is missing only when there is a maximum but no minimum, and
      equal limits show a single size. */
  lemma SizeLabelShapes(minSize: Option<string>, maxSize: Option<string>, size: string)
    ensures SizeLabel(minSize, maxSize).None? <==> minSize.None? && maxSize.Some?
    ensures SizeLabel(Some(size), Some(size)) == Some(size)
  {
  }

  /** `isAuto`: the limits are computed when the sizes adapt and are not fixed. */
  predicate IsAuto(volume: Volume) {
    volume.adaptiveSizes && !volume.fixedSizeLimits
  }

  /** `AutoCalculatedHint`: `None` is the `null` the source returns. */
  function AutoCalculatedHint(volume: Volume): (r: Option<seq<HintItem>>)
    ensures r.None? <==> !volume.snapshotsAffectSizes && volume.sizeRelevantVolumes == Some([])
    ensures r.Some? ==> (SnapshotsItem in r.value <==> volume.snapshotsAffectSizes)
    ensures r.Some? && volume.sizeRelevantVolumes.Some? && volume.sizeRelevantVolumes.value != [] ==>
      OtherVolumesItem(volume.sizeRelevantVolumes.value) in r.value
    ensures r.Some? && (volume.sizeRelevantVolumes.None? || volume.sizeRelevantVolumes.value == []) ==>
      forall item :: item in r.value ==> item == SnapshotsItem
    ensures r.Some? ==>
      |r.value| == (if volume.snapshotsAffectSizes then 1 else 0)
        + (if volume.sizeRelevantVolumes.Some? && volume.sizeRelevantVolumes.value != [] then 1 else 0)
    ensures r.Some? && volume.snapshotsAffectSizes ==> r.value[0] == SnapshotsItem
  {
    if !volume.snapshotsAffectSizes && volume.sizeRelevantVolumes.Some? && |volume.sizeRelevantVolumes.value| == 0 then None
    else
      var snapshots := if volume.snapshotsAffectSizes then [SnapshotsItem] else [];
      var others :=
        if volume.sizeRelevantVolumes.Some? && |volume.sizeRelevantVolumes.value| > 0
        then [OtherVolumesItem(volume.sizeRelevantVolumes.value)] else [];
      Some(snapshots + others)
  }

  /** When snapshots do not matter and the list of other volumes is missing
      (rather than empty), the hint is shown with no item at all. */
  lemma HintWithoutItems(volume: Volume)
    requires !volume.snapshotsAffectSizes && volume.sizeRelevantVolumes.None?
    ensures AutoCalculatedHint(volume) == Some([])
  {
    var none: seq<HintItem> := [];
    assert none + none == none;
  }

  /** What the size cell of a row shows: the size label and, when present,
      the "auto" tip whose description is the hint (itself possibly `null`). */
  type Hint = Option<seq<HintItem>>

  datatype SizeCell = SizeCell(sizeText: Option<string>, autoTip: Option<Hint>)

  /** `SizeLimits`: the label of the volume's limits, and the "auto" tip
      exactly when the limits are computed. */
  function SizeLimits(volume: Volume): (r: SizeCell)
    ensures r.sizeText == SizeLabel(volume.minSize, volume.maxSize)
    ensures r.autoTip.Some? <==> volume.adaptiveSizes && !volume.fixedSizeLimits
    ensures r.autoTip.Some? ==> r.autoTip.value == AutoCalculatedHint(volume)
  {
    var isAuto := IsAuto(volume);
    SizeCell(SizeLabel(volume.minSize, volume.maxSize), if isAuto then Some(AutoCalculatedHint(volume)) else None)
  }

  /** Fixed limits never show the "auto" tip, whatever the other flags say;
      and the label does not depend on whether the tip is shown. */
  lemma FixedLimitsShowNoTip(volume: Volume)
    ensures volume.fixedSizeLimits ==> SizeLimits(volume).autoTip.None?
    ensures SizeLimits(volume).sizeText == SizeLimits(volume.(adaptiveSizes := !volume.adaptiveSizes)).sizeText
  {
  }
}
