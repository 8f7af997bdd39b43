/** The helpers of the storage config editor: type guards that tell the
    shapes of a drive, a partition and a device search apart, and the texts
    shown for a drive and its partitions. Keys that the source tests with
    `"key" in object` are modelled as presence flags. */
module ConfigEditor {
  import opened Wrappers

  /** A bound of a size: text such as "2 GiB", or a number of bytes. */
  datatype SizeValue = SizeText(text: string) | SizeBytes(bytes: nat)

  /** `type.Size`: text, a number, a `[min, max]` pair or a `{min, max}` record. */
  datatype Size =
    | SizeString(text: string)
    | SizeNumber(bytes: nat)
    | SizePair(first: SizeValue, second: SizeValue)
    | SizeRange(min: SizeValue, max: SizeValue)

  datatype SearchCondition = SearchCondition(name: string)

  /** `type.Search`: a string ("*" or a device name) or an advanced search. */
  datatype Search = SearchText(text: string) | AdvancedSearch(condition: Option<SearchCondition>)

  /** A partition entry; `hasGenerate`, `hasDelete` and `hasDeleteIfNeeded`
      say whether the entry carries those keys. */
  datatype PartitionElement =
    PartitionElement(search: Option<Search>, hasGenerate: bool, hasDelete: bool, hasDeleteIfNeeded: bool, size: Option<Size>)

  datatype Filesystem = Filesystem(fsType: string)

  /** A drive entry: formatted (it has a filesystem) or partitioned. */
  datatype DriveElement =
    DriveElement(search: Option<Search>, filesystem: Option<Filesystem>, partitions: Option<seq<PartitionElement>>)

  predicate IsFormattedDrive(drive: DriveElement) {
    drive.filesystem.Some?
  }

  predicate IsSearchAll(search: Search) {
    search == SearchText("*")
  }

  predicate IsSearchByName(search: Search) {
    !IsSearchAll(search) && search.SearchText?
  }

  predicate IsAdvancedSearch(search: Search) {
    !IsSearchAll(search) && !IsSearchByName(search)
  }

  predicate IsPartitionToDelete(partition: PartitionElement) {
    partition.hasDelete
  }

  predicate IsPartitionToDeleteIfNeeded(partition: PartitionElement) {
    partition.hasDeleteIfNeeded
  }

  predicate IsPartition(partition: PartitionElement) {
    if partition.hasGenerate then false
    else !IsPartitionToDelete(partition) && !IsPartitionToDeleteIfNeeded(partition)
  }

  /** Every search is exactly one of "all", "by name" and "advanced"; "all"
      is exactly the string "*" and "advanced" exactly the object form. */
  lemma SearchClassification(search: Search)
    ensures IsSearchAll(search) <==> search.SearchText? && search.text == "*"
    ensures IsAdvancedSearch(search) <==> search.AdvancedSearch?
    ensures (if IsSearchAll(search) then 1 else 0) + (if IsSearchByName(search) then 1 else 0)
      + (if IsAdvancedSearch(search) then 1 else 0) == 1
  {
  }

  /** An entry that generates partitions or deletes one is never a plain
      partition. */
  lemma PartitionGuards(partition: PartitionElement)
    ensures partition.hasGenerate || partition.hasDelete || partition.hasDeleteIfNeeded ==> !IsPartition(partition)
    ensures IsPartition(partition) || IsPartitionToDelete(partition) || IsPartitionToDeleteIfNeeded(partition)
      <==> !(partition.hasGenerate && !partition.hasDelete && !partition.hasDeleteIfNeeded)
  {
  }

  /** `deviceName`, given the device's search: the name in the condition of
      an advanced search, nothing otherwise (no search at all counts as an
      advanced search without a condition). */
  function DeviceName(search: Option<Search>): (r: Option<string>)
    ensures r.Some? <==> search.Some? && search.value.AdvancedSearch? && search.value.condition.Some?
    ensures r.Some? ==> r.value == search.value.condition.value.name
  {
    match search
    case None => None
    case Some(s) =>
      if !IsAdvancedSearch(s) then None
      else
        match s.condition
        case None => None
        case Some(condition) => Some(condition.name)
  }

  function Digit(d: nat): char
    requires d < 10
  {
    "0123456789"[d]
  }

  predicate IsDigit(c: char) {
    '0' <= c <= '9'
  }

  /** The value of a decimal digit character, by its code point. */
  function DigitValue(c: char): nat
    requires IsDigit(c)
  {
    c as int - '0' as int
  }

  /** The number a string of decimal digits denotes, most significant first. */
  function DigitsValue(s: string): nat
    requires forall i :: 0 <= i < |s| ==> IsDigit(s[i])
  {
    if s == [] then 0 else 10 * DigitsValue(s[..|s| - 1]) + DigitValue(s[|s| - 1])
  }

  lemma DigitValueOfDigit(d: nat)
    requires d < 10
    ensures IsDigit(Digit(d)) && DigitValue(Digit(d)) == d
    ensures Digit(d) == '0' <==> d == 0
  {
  }

  /** A non-negative number as JavaScript writes it in a template: its
      decimal digits, without leading zeros. */
  function NatToString(n: nat): (r: string)
    ensures |r| >= 1
    ensures forall i :: 0 <= i < |r| ==> IsDigit(r[i])
    ensures DigitsValue(r) == n
    ensures |r| > 1 ==> r[0] != '0'
    decreases n
  {
    DigitValueOfDigit(n % 10);
    if n < 10 then
      var r := [Digit(n)];
      assert r[..0] == [];
      r
    else
      var prefix := NatToString(n / 10);
      var r := prefix + [Digit(n % 10)];
      assert r[..|r| - 1] == prefix;
      r
  }

  function SizeValueText(v: SizeValue): string {
    match v
    case SizeText(text) => text
    case SizeBytes(bytes) => NatToString(bytes)
  }

  /** `sizeInfo`. */
  function SizeInfo(size: Size): (r: string)
    ensures size.SizeString? ==> r == size.text
    ensures size.SizeNumber? ==> r == ""
    ensures size.SizePair? ==> r == SizeValueText(size.first) + " - " + SizeValueText(size.second)
    ensures size.SizeRange? ==> r == SizeValueText(size.min) + " - " + SizeValueText(size.max)
  {
    match size
    case SizeString(text) => text
    case SizeNumber(_) => ""
    case SizePair(first, second) => SizeValueText(first) + " - " + SizeValueText(second)
    case SizeRange(min, max) => SizeValueText(min) + " - " + SizeValueText(max)
  }

  /** A pair and a record with the same bounds read the same, and the text is
      empty only for a bare number or an empty string. */
  lemma SizeInfoShapes(a: SizeValue, b: SizeValue, size: Size)
    ensures SizeInfo(SizePair(a, b)) == SizeInfo(SizeRange(a, b))
    ensures SizeInfo(size) == "" <==> size.SizeNumber? || size == SizeString("")
  {
    if size.SizePair? || size.SizeRange? {
      assert |SizeInfo(size)| >= 3;
    }
  }

  /** JavaScript's falsy sizes: undefined, the empty string and zero. */
  predicate FalsySize(size: Option<Size>) {
    size.None? || size == Some(SizeString("")) || size == Some(SizeNumber(0))
  }

  /** `deviceSize`: nothing for a falsy size, its text otherwise. */
  function DeviceSize(partition: PartitionElement): (r: Option<string>)
    ensures r.None? <==> FalsySize(partition.size)
    ensures r.Some? ==> r.value == SizeInfo(partition.size.value)
  {
    if FalsySize(partition.size) then None else Some(SizeInfo(partition.size.value))
  }

  /** `driveInfo`: the filesystem type of a formatted drive, the number of
      partitions otherwise. `None` stands for the TypeError the source
      raises when a drive has neither a filesystem nor a partition list. */
  function DriveInfo(drive: DriveElement): (r: Option<string>)
    ensures IsFormattedDrive(drive) ==> r == Some(drive.filesystem.value.fsType)
    ensures !IsFormattedDrive(drive) && drive.partitions.Some? ==>
      r == Some("Partitioned (" + NatToString(|drive.partitions.value|) + ")")
    ensures r.None? <==> !IsFormattedDrive(drive) && drive.partitions.None?
  {
    if IsFormattedDrive(drive) then Some(drive.filesystem.value.fsType)
    else
      match drive.partitions
      case None => None
      case Some(partitions) => Some("Partitioned (" + NatToString(|partitions|) + ")")
  }

  /** The partition entries the editor shows: plain partitions and the ones
      to delete (always or if needed), in their order. */
  function ShownPartitions(partitions: seq<PartitionElement>): (r: seq<PartitionElement>)
    ensures |r| <= |partitions|
    ensures forall i :: 0 <= i < |r| ==>
      r[i] in partitions && !(r[i].hasGenerate && !r[i].hasDelete && !r[i].hasDeleteIfNeeded)
    ensures forall i :: 0 <= i < |partitions| && !(partitions[i].hasGenerate && !partitions[i].hasDelete && !partitions[i].hasDeleteIfNeeded) ==>
      partitions[i] in r
  {
    if partitions == [] then []
    else
      var p := partitions[0];
      PartitionGuards(p);
      var rest := ShownPartitions(partitions[1..]);
      if IsPartition(p) || IsPartitionToDelete(p) || IsPartitionToDeleteIfNeeded(p) then [p] + rest else rest
  }

  /** The filter keeps order: filtering two halves and joining is filtering
      the whole. */
  lemma {:induction false} ShownPartitionsAppend(a: seq<PartitionElement>, b: seq<PartitionElement>)
    ensures ShownPartitions(a + b) == ShownPartitions(a) + ShownPartitions(b)
  {
    if a == [] {
      assert a + b == b;
    } else {
      assert (a + b)[1..] == a[1..] + b;
      ShownPartitionsAppend(a[1..], b);
    }
  }

  /** `drivePartitions`: none for a formatted drive; otherwise the shown
      entries of its partition list (a missing list counts as empty). */
  function DrivePartitions(drive: DriveElement): (r: seq<PartitionElement>)
    ensures IsFormattedDrive(drive) || drive.partitions.None? ==> r == []
    ensures !IsFormattedDrive(drive) && drive.partitions.Some? ==> r == ShownPartitions(drive.partitions.value)
  {
    if IsFormattedDrive(drive) then []
    else
      var partitions := if drive.partitions.Some? then drive.partitions.value else [];
      ShownPartitions(partitions)
  }

  /** `partitionInfo`. */
  function PartitionInfo(partition: PartitionElement): (r: string)
    ensures IsPartitionToDelete(partition) ==> r == "Delete"
    ensures !IsPartitionToDelete(partition) && IsPartitionToDeleteIfNeeded(partition) ==>
      r == "Size: " + Interpolate(DeviceSize(partition))
    ensures !IsPartitionToDelete(partition) && !IsPartitionToDeleteIfNeeded(partition) ==>
      r == "Size: " + Interpolate(DeviceSize(partition)) + ", File system: "
  {
    if IsPartitionToDelete(partition) then "Delete"
    else if IsPartitionToDeleteIfNeeded(partition) then "Size: " + Interpolate(DeviceSize(partition))
    else "Size: " + Interpolate(DeviceSize(partition)) + ", File system: "
  }

  /** A plain partition's text is that of the same entry marked delete-if-needed
      followed by ", File system: ", and nothing else distinguishes them. */
  lemma PartitionInfoSuffix(partition: PartitionElement)
    requires !partition.hasDelete && !partition.hasDeleteIfNeeded
    ensures PartitionInfo(partition) == PartitionInfo(partition.(hasDeleteIfNeeded := true)) + ", File system: "
  {
  }
}
