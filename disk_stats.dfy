/** The write counter of the virtual disk (get_disk_write_sectors in
    main.py): the partition's device path names a statistics file under
    /sys/block, whose seventh field counts the 512-byte sectors written.

    The statistics files are given as a map from path to contents; a path
    missing from the map is a file that cannot be read. */
module DiskStats {
  import opened Text

  const DevPrefix: string := "/dev/"

  /** The counter value that means "not available". */
  const NoCounter: int := -1

  /** The index of the write_sectors field in a block statistics line. */
  const WriteSectorsField: nat := 6

  /** The partition name: the device path with "/dev/" removed. */
  function Partition(diskPath: string): string {
    RemoveAll(diskPath, DevPrefix)
  }

  /** Removing a text that does not occur changes nothing. */
  lemma {:induction false} RemoveAbsent(s: string, pat: string)
    requires pat != [] && !Contains(s, pat)
    ensures RemoveAll(s, pat) == s
    decreases |s|
  {
    if |s| >= |pat| {
      assert !StartsWith(s, pat);
      RemoveAbsent(s[1..], pat);
      assert [s[0]] + s[1..] == s;
    }
  }

  /** The partition of `/dev/<name>` is `name` when "/dev/" does not occur
      in `name` again. */
  lemma DevPartition(name: string)
    requires !Contains(name, DevPrefix)
    ensures Partition(DevPrefix + name) == name
  {
    var s := DevPrefix + name;
    assert s[..|DevPrefix|] == DevPrefix && s[|DevPrefix|..] == name;
    RemoveAbsent(name, DevPrefix);
  }

  /** The disk a partition belongs to: trailing digits removed, and for
      MMC devices the trailing 'p' separator removed as well. */
  function DiskName(part: string): (r: string)
    ensures |r| <= |part| && r == part[..|r|]
    ensures !Contains(part, "mmcblk") ==> AllIn(part[|r|..], Digits) && (r == [] || r[|r| - 1] !in Digits)
    ensures Contains(part, "mmcblk") ==> AllIn(part[|r|..], Digits + {'p'}) && (r == [] || r[|r| - 1] != 'p')
    ensures Contains(part, "mmcblk") ==>
      exists k :: |r| <= k <= |part| && AllIn(part[|r|..k], {'p'}) && AllIn(part[k..], Digits) && (k == 0 || part[k - 1] !in Digits)
  {
    if Contains(part, "mmcblk") then
      var bare := RStrip(part, Digits);
      var r := RStrip(bare, {'p'});
      assert part[|r|..] == bare[|r|..] + part[|bare|..];
      assert part[|r|..|bare|] == bare[|r|..];
      assert |bare| == 0 || part[|bare| - 1] == bare[|bare| - 1];
      r
    else RStrip(part, Digits)
  }

  /** The statistics file of a partition. */
  function StatPath(disk: string, part: string): string {
    "/sys/block/" + disk + "/" + part + "/stat"
  }

  /** The statistics file read for a configured device path. */
  function StatPathOf(diskPath: string): string {
    StatPath(DiskName(Partition(diskPath)), Partition(diskPath))
  }

  /** The counter a statistics text holds: the integer in its seventh
      white-space separated field. */
  function SectorsField(stat: string): Option<int> {
    var fields := Words(stat);
    if |fields| > WriteSectorsField then ParseInt(fields[WriteSectorsField]) else None
  }

  /** get_disk_write_sectors: -1 for a path outside /dev/, an unreadable
      statistics file, fewer than seven fields or a seventh field that is
      not an integer; the seventh field otherwise. */
  function WriteSectors(diskPath: string, statFiles: map<string, string>): (r: int)
    ensures !StartsWith(diskPath, DevPrefix) || StatPathOf(diskPath) !in statFiles ==> r == NoCounter
    ensures StartsWith(diskPath, DevPrefix) && StatPathOf(diskPath) in statFiles ==>
      var field := SectorsField(statFiles[StatPathOf(diskPath)]);
      (field.Some? ==> r == field.value) && (field.None? ==> r == NoCounter)
  {
    if !StartsWith(diskPath, DevPrefix) then NoCounter
    else
      var path := StatPathOf(diskPath);
      if path !in statFiles then NoCounter
      else
        match SectorsField(statFiles[path])
        case Some(v) => v
        case None => NoCounter
  }

  /** A statistics line of fewer than seven fields gives no counter. */
  lemma ShortStatHasNoCounter(fields: seq<string>)
    requires AllWords(fields) && |fields| <= WriteSectorsField
    ensures SectorsField(JoinSpaced(fields)) == None
  {
    WordsOfJoin(fields);
  }

  /** int() of a formatted number gives the number back. */
  lemma ParseShown(n: nat)
    ensures ParseInt(ShowNat(n)) == Some(n)
  {
    var t := ShowNat(n);
    assert t[0] in Digits && t[|t| - 1] in Digits;
    LStripPadded([], t, Whitespace);
    RStripPadded(t, [], Whitespace);
    assert [] + t == t && t + [] == t;
    ParseDigitsOnly(t, t);
    ShowNatRoundTrip(n);
  }

  /** A statistics line whose seventh field is a number gives that number. */
  lemma StatLineCounter(fields: seq<string>, n: nat)
    requires AllWords(fields) && |fields| > WriteSectorsField && fields[WriteSectorsField] == ShowNat(n)
    ensures SectorsField(JoinSpaced(fields)) == Some(n)
  {
    WordsOfJoin(fields);
    ParseShown(n);
  }

  /** The counter of the device `/dev/<p>` is the seventh field of the
      statistics file of `p` under its disk, when that field is a number. */
  lemma DeviceCounter(p: string, stats: map<string, string>, fields: seq<string>, n: nat)
    requires !Contains(p, DevPrefix)
    requires StatPath(DiskName(p), p) in stats && stats[StatPath(DiskName(p), p)] == JoinSpaced(fields)
    requires AllWords(fields) && |fields| > WriteSectorsField && fields[WriteSectorsField] == ShowNat(n)
    ensures WriteSectors(DevPrefix + p, stats) == n
  {
    DevPartition(p);
    assert (DevPrefix + p)[..|DevPrefix|] == DevPrefix;
    StatLineCounter(fields, n);
  }

  /** A statistics file of fewer than seven fields gives the device no counter. */
  lemma DeviceShortStat(p: string, stats: map<string, string>, fields: seq<string>)
    requires !Contains(p, DevPrefix)
    requires StatPath(DiskName(p), p) in stats && stats[StatPath(DiskName(p), p)] == JoinSpaced(fields)
    requires AllWords(fields) && |fields| <= WriteSectorsField
    ensures WriteSectors(DevPrefix + p, stats) == NoCounter
  {
    DevPartition(p);
    assert (DevPrefix + p)[..|DevPrefix|] == DevPrefix;
    ShortStatHasNoCounter(fields);
  }

  /** Stripping the partition number and the 'p' separator of an MMC name. */
  lemma MmcDiskOf(disk: string, number: string)
    requires disk != [] && disk[|disk| - 1] in Digits && AllIn(number, Digits)
    requires Contains(disk + "p" + number, "mmcblk")
    ensures DiskName(disk + "p" + number) == disk
  {
    RStripPadded(disk + "p", number, Digits);
    RStripPadded(disk, "p", {'p'});
  }

  lemma MmcName(k: string, n: string)
    ensures "mmcblk" + k + "p" + n == "" + "mmcblk" + (k + "p" + n)
  {
  }

  /** An MMC partition `mmcblk<k>p<n>` belongs to the disk `mmcblk<k>`. */
  lemma MmcDisk(k: nat, n: nat)
    ensures DiskName("mmcblk" + ShowNat(k) + "p" + ShowNat(n)) == "mmcblk" + ShowNat(k)
  {
    var kd, nd := ShowNat(k), ShowNat(n);
    MmcName(kd, nd);
    ContainsInfix("", "mmcblk", kd + "p" + nd);
    assert kd[|kd| - 1] in Digits;
    MmcDiskOf("mmcblk" + kd, nd);
  }

  /** A partition `<name><n>` whose name ends in a letter (such as sda1)
      belongs to the disk `<name>`. */
  lemma LetteredDisk(name: string, n: nat)
    requires name != [] && name[|name| - 1] !in Digits
    requires !Contains(name + ShowNat(n), "mmcblk")
    ensures DiskName(name + ShowNat(n)) == name
  {
    RStripPadded(name, ShowNat(n), Digits);
  }
}
