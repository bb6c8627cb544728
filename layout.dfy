/** The Nailgun provisioning driver's view of a node: the declared storage
    layout (`ks_spaces`), the block devices found on the machine, and the
    pure rules that turn the two into a partition scheme. The functions here
    are the specification that the imperative driver in module Nailgun is
    proved against. */
module NailgunLayout {
  import opened Wrappers
  import opened Scheme

  /** A volume's `type` key. `OtherVolume(tag)` stands for every value other
      than `partition`, `pv`, `raid` and `lv`; its tag is never one of those
      four, so each value of the key has exactly one encoding. */
  datatype VolumeType = PartitionVolume | PvVolume | RaidVolume | LvVolume | OtherVolume(tag: string)

  /** One entry of a disk's or a volume group's `volumes` list; the keys the
      layout may omit are options. */
  datatype Volume = Volume(
    name: Option<string>,
    vtype: VolumeType,
    size: int,
    mount: Option<string>,
    fileSystem: Option<string>,
    diskLabel: Option<string>,
    partitionGuid: Option<string>,
    vg: Option<string>)

  datatype KsDisk = KsDisk(
    name: string,
    id: Option<string>,
    extra: Option<seq<string>>,
    size: int,
    volumes: seq<Volume>)

  datatype KsVg = KsVg(id: string, volumes: seq<Volume>)

  /** One entry of `ks_spaces`, by its `type` key. `OtherSpace(kind)` stands
      for every kind other than `disk` and `vg`; its kind is never one of
      those two. */
  datatype Space = DiskSpace(disk: KsDisk) | VgSpace(vg: KsVg) | OtherSpace(kind: string)

  /** A discovered block device: its path and, when udev reported them, its links. */
  datatype BlockDevice = BlockDevice(device: string, devlinks: Option<seq<string>>)

  datatype Error =
    | DiskNotFound(disk: string)   // no device, or more than one, for a declared disk
    | ZeroDivision                 // journal ratio computed with no OSD or no journal
    | MissingKey(key: string)      // a `pv` without `vg`, an `lv` without `name`
    | NoAdminInterface             // no interface carries the chosen MAC address

  const ByIdPrefix: string := "/dev/disk/by-id"
  const GptLabel: string := "gpt"
  const BiosGrubFlag: string := "bios_grub"
  const BootSize: real := 24.0
  const UefiSize: real := 200.0
  const ConfigdriveSize: real := 20.0
  const MaxJournalSize: real := 10240.0
  const LabelLimit: nat := 12
  const CephJournalName: string := "cephjournal"
  const CephOsdName: string := "ceph"
  const DefaultFsType: string := "xfs"

  function StartsWith(s: string, prefix: string): bool {
    |prefix| <= |s| && s[..|prefix|] == prefix
  }

  function DevPath(name: string): string {
    "/dev/" + name
  }

  function DevPaths(names: seq<string>): seq<string> {
    seq(|names|, i requires 0 <= i < |names| => DevPath(names[i]))
  }

  /** Whether some link is both in `links` and in `wanted` and is a by-id link. */
  function SharesByIdLink(links: seq<string>, wanted: seq<string>): (b: bool)
    ensures b <==> exists l :: l in links && l in wanted && StartsWith(l, ByIdPrefix)
  {
    if links == [] then false
    else (links[0] in wanted && StartsWith(links[0], ByIdPrefix)) || SharesByIdLink(links[1..], wanted)
  }

  /** Whether a discovered device is the declared disk, by its udev links. */
  function MatchDevice(hu: BlockDevice, ks: KsDisk): (matched: bool)
    ensures matched <==>
              hu.devlinks.Some? &&
              ((ks.extra.Some? &&
                exists e :: e in ks.extra.value && DevPath(e) in hu.devlinks.value && StartsWith(DevPath(e), ByIdPrefix))
               || (ks.id.Some? && DevPath(ks.id.value) in hu.devlinks.value))
  {
    match hu.devlinks
    case None => false
    case Some(links) =>
      var byExtra := ks.extra.Some? && SharesByIdLink(links, DevPaths(ks.extra.value));
      assert byExtra <==> (ks.extra.Some? &&
        exists e :: e in ks.extra.value && DevPath(e) in links && StartsWith(DevPath(e), ByIdPrefix)) by {
        if ks.extra.Some? {
          var extra := ks.extra.value;
          if byExtra {
            var l :| l in links && l in DevPaths(extra) && StartsWith(l, ByIdPrefix);
            var i :| 0 <= i < |extra| && DevPaths(extra)[i] == l;
            assert extra[i] in extra && DevPath(extra[i]) == l;
          }
          if exists e :: e in extra && DevPath(e) in links && StartsWith(DevPath(e), ByIdPrefix) {
            var e :| e in extra && DevPath(e) in links && StartsWith(DevPath(e), ByIdPrefix);
            var i :| 0 <= i < |extra| && extra[i] == e;
            assert DevPaths(extra)[i] == DevPath(e);
          }
        }
      }
      byExtra || (ks.id.Some? && DevPath(ks.id.value) in links)
  }

  /** The two ways a declared disk picks out discovered devices: by its
      udev links, or by its kernel name. */
  datatype Selector = ByLinks(disk: KsDisk) | ByName(name: string)

  function Selects(sel: Selector, hu: BlockDevice): bool {
    match sel
    case ByLinks(disk) => MatchDevice(hu, disk)
    case ByName(name) => DevPath(name) == hu.device
  }

  /** The paths of the devices that `sel` selects, in discovery order. */
  function DevicesWhere(hus: seq<BlockDevice>, sel: Selector): (r: seq<string>)
    ensures |r| <= |hus|
    ensures forall d :: d in r <==> exists i :: 0 <= i < |hus| && Selects(sel, hus[i]) && hus[i].device == d
  {
    if hus == [] then []
    else
      var rest := DevicesWhere(hus[1..], sel);
      assert forall i :: 0 < i < |hus| ==> hus[i] == hus[1..][i - 1];
      (if Selects(sel, hus[0]) then [hus[0].device] else []) + rest
  }

  /** The device a declared disk stands for: the one device that matches it
      by links or, when none does, the one device named after it. */
  function DiskDev(disk: KsDisk, hus: seq<BlockDevice>): (r: Result<string, Error>)
    ensures r.Failure? ==> r.error == DiskNotFound(disk.name)
  {
    var matched := DevicesWhere(hus, ByLinks(disk));
    var fallback := DevicesWhere(hus, ByName(disk.name));
    var found := if matched != [] then matched else fallback;
    if |found| != 1 then Failure(DiskNotFound(disk.name)) else Ok(found[0])
  }

  /** The `-L` option for a file-system label; XFS refuses labels longer
      than twelve characters, so the label is cut there. */
  function GetLabel(text: Option<string>): (r: string)
    ensures text.None? || text.value == "" <==> r == ""
    ensures r != "" ==>
              var cut := |r| - 5;
              && 0 < cut <= LabelLimit
              && cut == (if |text.value| < LabelLimit then |text.value| else LabelLimit)
              && r[..4] == " -L " && r[|r| - 1] == ' '
              && r[4..|r| - 1] == text.value[..cut]
  {
    if text.None? || text.value == "" then ""
    else
      var l := text.value;
      " -L " + (if |l| <= LabelLimit then l else l[..LabelLimit]) + " "
  }

  function IsMounted(v: Volume): bool {
    v.mount.Some? && v.mount.value != "none"
  }

  function FsType(v: Volume): string {
    if v.fileSystem.Some? then v.fileSystem.value else DefaultFsType
  }

  /** The entries of the layout that become parteds: disks of positive size. */
  function KsDisks(spaces: seq<Space>): (disks: seq<KsDisk>)
    ensures |disks| <= |spaces|
    ensures forall d :: d in disks <==> DiskSpace(d) in spaces && d.size > 0
  {
    if spaces == [] then []
    else
      assert forall s :: s in spaces <==> s == spaces[0] || s in spaces[1..];
      (if spaces[0].DiskSpace? && spaces[0].disk.size > 0 then [spaces[0].disk] else [])
      + KsDisks(spaces[1..])
  }

  /** The volume groups of the layout, whatever their contents. */
  function KsVgs(spaces: seq<Space>): (vgs: seq<KsVg>)
    ensures |vgs| <= |spaces|
    ensures forall vg :: vg in vgs <==> VgSpace(vg) in spaces
  {
    if spaces == [] then []
    else
      assert forall s :: s in spaces <==> s == spaces[0] || s in spaces[1..];
      (if spaces[0].VgSpace? then [spaces[0].vg] else []) + KsVgs(spaces[1..])
  }

  /** The disks of a layout split at any point are the disks of the first
      part followed by those of the second: the filter keeps layout order. */
  lemma {:induction false} KsDisksAppend(a: seq<Space>, c: seq<Space>)
    ensures KsDisks(a + c) == KsDisks(a) + KsDisks(c)
    decreases |a|
  {
    if a == [] {
      assert a + c == c;
    } else {
      assert (a + c)[0] == a[0] && (a + c)[1..] == a[1..] + c;
      KsDisksAppend(a[1..], c);
    }
  }

  /** A single entry is kept exactly when it is a disk of positive size. */
  lemma KsDisksSingle(s: Space)
    ensures KsDisks([s]) == if s.DiskSpace? && s.disk.size > 0 then [s.disk] else []
  {
    assert [s][1..] == [];
  }

  /** The volume groups keep layout order in the same way. */
  lemma {:induction false} KsVgsAppend(a: seq<Space>, c: seq<Space>)
    ensures KsVgs(a + c) == KsVgs(a) + KsVgs(c)
    decreases |a|
  {
    if a == [] {
      assert a + c == c;
    } else {
      assert (a + c)[0] == a[0] && (a + c)[1..] == a[1..] + c;
      KsVgsAppend(a[1..], c);
    }
  }

  lemma KsVgsSingle(s: Space)
    ensures KsVgs([s]) == if s.VgSpace? then [s.vg] else []
  {
    assert [s][1..] == [];
  }

  /** The volumes called `name` that have a positive size, in declaration order. */
  function NamedVolumes(vols: seq<Volume>, name: string): (r: seq<Volume>)
    ensures |r| <= |vols|
    decreases |vols|
  {
    if vols == [] then []
    else
      var last := vols[|vols| - 1];
      NamedVolumes(vols[..|vols| - 1], name) + (if last.name == Some(name) && last.size > 0 then [last] else [])
  }

  /** Exactly the volumes called `name` with a positive size are kept. */
  lemma {:induction false} NamedVolumesMembers(vols: seq<Volume>, name: string)
    ensures forall v :: v in NamedVolumes(vols, name) <==> v in vols && v.name == Some(name) && v.size > 0
    decreases |vols|
  {
    if vols != [] {
      var last := vols[|vols| - 1];
      NamedVolumesMembers(vols[..|vols| - 1], name);
      assert forall v :: v in vols <==> v == last || v in vols[..|vols| - 1] by {
        assert vols == vols[..|vols| - 1] + [last];
      }
    }
  }

  /** Each volume is kept as many times as it occurs, if it is called `name`
      and has a positive size, and not at all otherwise. */
  lemma {:induction false} NamedVolumesMultiset(vols: seq<Volume>, name: string, v: Volume)
    ensures multiset(NamedVolumes(vols, name))[v] == if Counted(v, name) then multiset(vols)[v] else 0
    decreases |vols|
  {
    if vols != [] {
      var init, last := vols[..|vols| - 1], vols[|vols| - 1];
      NamedVolumesMultiset(init, name, v);
      assert vols == init + [last];
    }
  }

  /** A volume the partition counts take in: called `name`, of positive size. */
  predicate Counted(v: Volume, name: string) {
    v.name == Some(name) && v.size > 0
  }

  /** Some disk declares a volume called `name` of positive size. */
  predicate Declares(disks: seq<KsDisk>, name: string) {
    exists k, i :: 0 <= k < |disks| && 0 <= i < |disks[k].volumes| && Counted(disks[k].volumes[i], name)
  }

  lemma DeclaresSplit(disks: seq<KsDisk>, name: string)
    requires disks != []
    ensures Declares(disks, name) <==>
              Declares(disks[..|disks| - 1], name) || exists v :: v in disks[|disks| - 1].volumes && Counted(v, name)
  {
    var init, last := disks[..|disks| - 1], disks[|disks| - 1];
    if Declares(disks, name) {
      var k, i :| 0 <= k < |disks| && 0 <= i < |disks[k].volumes| && Counted(disks[k].volumes[i], name);
      if k < |init| {
        assert init[k] == disks[k];
      } else {
        assert disks[k].volumes[i] in last.volumes;
      }
    }
    if exists v :: v in last.volumes && Counted(v, name) {
      var v :| v in last.volumes && Counted(v, name);
      var i :| 0 <= i < |last.volumes| && last.volumes[i] == v;
      assert Counted(disks[|disks| - 1].volumes[i], name);
    }
    if Declares(init, name) {
      var k, i :| 0 <= k < |init| && 0 <= i < |init[k].volumes| && Counted(init[k].volumes[i], name);
      assert disks[k] == init[k];
    }
  }

  /** How many volumes called `name`, of positive size, the disks declare;
      none exactly when no disk declares one. */
  function PartitionCount(disks: seq<KsDisk>, name: string): (n: nat)
    ensures n > 0 <==> Declares(disks, name)
    decreases |disks|
  {
    if disks == [] then 0
    else
      var last := disks[|disks| - 1];
      NamedVolumesMembers(last.volumes, name);
      DeclaresSplit(disks, name);
      var named := NamedVolumes(last.volumes, name);
      assert |named| > 0 <==> exists v :: v in last.volumes && Counted(v, name) by {
        if |named| > 0 {
          assert named[0] in named;
        }
      }
      PartitionCount(disks[..|disks| - 1], name) + |named|
  }

  /** The count over a split list of disks is the sum of the counts of its
      parts, and one disk counts its volumes called `name` of positive size:
      with NamedVolumesMultiset, the count is the number of such volumes,
      each occurrence counted once. */
  lemma {:induction false} PartitionCountAppend(a: seq<KsDisk>, c: seq<KsDisk>, name: string)
    ensures PartitionCount(a + c, name) == PartitionCount(a, name) + PartitionCount(c, name)
    decreases |c|
  {
    if c == [] {
      assert a + c == a;
    } else {
      var init := c[..|c| - 1];
      assert (a + c)[..|a + c| - 1] == a + init && (a + c)[|a + c| - 1] == c[|c| - 1];
      PartitionCountAppend(a, init, name);
    }
  }

  lemma PartitionCountSingle(d: KsDisk, name: string)
    ensures PartitionCount([d], name) == |NamedVolumes(d.volumes, name)|
  {
    assert [d][..0] == [];
  }

  /** ceil(osds / journals): how many journal partitions one journal device
      hosts, counted as the number of whole or partial groups of `journals`
      OSD volumes. */
  function Ratio(osds: nat, journals: nat): (r: nat)
    requires journals > 0
    ensures r == 0 <==> osds == 0
    ensures r <= osds
    decreases osds
  {
    if osds == 0 then 0
    else if osds <= journals then 1
    else 1 + Ratio(osds - journals, journals)
  }

  /** The ratio is the rounded-up quotient: the least count of journal
      partitions per journal device that gives every OSD volume one. */
  lemma {:induction false} RatioBounds(osds: nat, journals: nat)
    requires journals > 0
    ensures journals * Ratio(osds, journals) >= osds
    ensures Ratio(osds, journals) > 0 ==> journals * (Ratio(osds, journals) - 1) < osds
    decreases osds
  {
    if osds > journals {
      RatioBounds(osds - journals, journals);
    }
  }

  /** The ratio the disk loop divides a journal volume by. It depends only
      on the two counts, so it is computed once here rather than at every
      journal volume; it is 0, and the division fails, when there is no
      journal volume or no OSD volume. */
  function JournalRatio(osds: nat, journals: nat): (r: nat)
    ensures r > 0 <==> osds > 0 && journals > 0
  {
    if journals == 0 then 0 else Ratio(osds, journals)
  }

  /** The size of one journal partition: the volume shared out, at most 10240. */
  function JournalSize(size: int, ratio: nat): (s: real)
    requires ratio > 0
    ensures s <= MaxJournalSize
    ensures size > 0 ==> s > 0.0
  {
    var s := size as real / ratio as real;
    if s > MaxJournalSize then MaxJournalSize else s
  }

  /** A journal partition is the volume's share, capped at 10240: the share
      itself whenever it is at most the cap, the cap otherwise. */
  lemma JournalSizeBounds(size: int, ratio: nat)
    requires ratio > 0
    ensures JournalSize(size, ratio) <= MaxJournalSize
    ensures JournalSize(size, ratio) == MaxJournalSize || JournalSize(size, ratio) * ratio as real == size as real
    ensures size as real / ratio as real <= MaxJournalSize ==> JournalSize(size, ratio) == size as real / ratio as real
    ensures size as real / ratio as real > MaxJournalSize ==> JournalSize(size, ratio) == MaxJournalSize
  {
  }

  /** How many journal partitions the next journal device gets. */
  function JournalEnd(ratio: nat, journalsLeft: nat): (end: nat)
    ensures end <= ratio && end <= journalsLeft
    ensures end == ratio || end == journalsLeft
  {
    if ratio < journalsLeft then ratio else journalsLeft
  }

  /** The running state of the disk loop: the scheme so far and the
      number of journal partitions still to place. */
  datatype Builder = Builder(plan: Plan, journalsLeft: nat)

  /** `n` rounds of the journal loop; a round carves a partition only for a
      volume of type `partition`. */
  function JournalLoop(plan: Plan, n: nat, size: real, guid: Option<string>, carve: bool): (r: Plan)
    requires plan.parteds != []
    ensures |r.parteds| == |plan.parteds|
  {
    if n == 0 then plan
    else
      var p := JournalLoop(plan, n - 1, size, guid, carve);
      if carve then p.AddPartition(size, [], guid, false) else p
  }

  function CarvesPartition(t: VolumeType): bool {
    t.PartitionVolume? || t.PvVolume? || t.RaidVolume?
  }

  /** One declared volume of the disk being planned. */
  function VolumeStep(b: Builder, vol: Volume, ratio: nat): (r: Result<Builder, Error>)
    requires b.plan.parteds != []
    ensures r.Ok? ==> |r.value.plan.parteds| == |b.plan.parteds| && r.value.journalsLeft <= b.journalsLeft
    ensures r.Failure? ==> r.error == ZeroDivision || r.error == MissingKey("vg")
  {
    if vol.size <= 0 then Ok(b)
    else if vol.name == Some(CephJournalName) then
      if ratio == 0 then Failure(ZeroDivision)
      else
        var end := JournalEnd(ratio, b.journalsLeft);
        var plan := JournalLoop(b.plan, end, JournalSize(vol.size, ratio), vol.partitionGuid,
                                vol.vtype == PartitionVolume);
        Ok(Builder(plan, b.journalsLeft - end))
    else
      var guid := if vol.vtype == PartitionVolume then vol.partitionGuid else None;
      var plan := if CarvesPartition(vol.vtype) then b.plan.AddPartition(vol.size as real, [], guid, false)
                  else b.plan;
      var prt := plan.LastPartitionName();
      match vol.vtype
      case PartitionVolume =>
        if IsMounted(vol) then
          Ok(b.(plan := plan.AddFs(prt, vol.mount.value, FsType(vol), GetLabel(vol.diskLabel))))
        else Ok(b.(plan := plan))
      case PvVolume =>
        if vol.vg.None? then Failure(MissingKey("vg"))
        else Ok(b.(plan := plan.VgAttachByName(prt, vol.vg.value)))
      case RaidVolume =>
        if IsMounted(vol) then
          Ok(b.(plan := plan.MdAttachByMount(prt, vol.mount.value, FsType(vol), GetLabel(vol.diskLabel))))
        else Ok(b.(plan := plan))
      case _ => Ok(b)
  }

  /** The declared volumes of one disk, in declaration order. */
  function VolumesFold(b: Builder, vols: seq<Volume>, ratio: nat): (r: Result<Builder, Error>)
    requires b.plan.parteds != []
    ensures r.Ok? ==> |r.value.plan.parteds| == |b.plan.parteds| && r.value.journalsLeft <= b.journalsLeft
    ensures r.Failure? ==> r.error == ZeroDivision || r.error == MissingKey("vg")
    decreases |vols|
  {
    if vols == [] then Ok(b)
    else
      var b' :- VolumesFold(b, vols[..|vols| - 1], ratio);
      VolumeStep(b', vols[|vols| - 1], ratio)
  }

  /** One declared disk: its parted, the two boot partitions, its volumes and,
      while the scheme has none, the config-drive partition. */
  function DiskStep(b: Builder, disk: KsDisk, hus: seq<BlockDevice>, ratio: nat)
    : (r: Result<Builder, Error>)
    ensures r.Ok? ==> |r.value.plan.parteds| == |b.plan.parteds| + 1 && r.value.journalsLeft <= b.journalsLeft
    ensures r.Failure? ==> r.error == DiskNotFound(disk.name) || r.error == ZeroDivision || r.error == MissingKey("vg")
  {
    var dev :- DiskDev(disk, hus);
    var plan := b.plan.AddParted(dev, GptLabel).SetInstallBootloader()
                .AddPartition(BootSize, [BiosGrubFlag], None, false)
                .AddPartition(UefiSize, [], None, false);
    var b' :- VolumesFold(Builder(plan, b.journalsLeft), disk.volumes, ratio);
    if b'.plan.ConfigdriveDevice().None? then
      Ok(b'.(plan := b'.plan.AddPartition(ConfigdriveSize, [], None, true)))
    else Ok(b')
  }

  /** The filtered disks, in layout order. */
  function DisksFold(b: Builder, disks: seq<KsDisk>, hus: seq<BlockDevice>, ratio: nat)
    : (r: Result<Builder, Error>)
    ensures r.Ok? ==> |r.value.plan.parteds| == |b.plan.parteds| + |disks| && r.value.journalsLeft <= b.journalsLeft
    ensures r.Failure? ==> r.error.DiskNotFound? || r.error == ZeroDivision || r.error == MissingKey("vg")
    decreases |disks|
  {
    if disks == [] then Ok(b)
    else
      var b' :- DisksFold(b, disks[..|disks| - 1], hus, ratio);
      DiskStep(b', disks[|disks| - 1], hus, ratio)
  }

  /** One volume of a volume group: a logical volume and, if mounted, its file system. */
  function LvStep(plan: Plan, vgId: string, vol: Volume): (r: Result<Plan, Error>)
    ensures r.Ok? ==> r.value.parteds == plan.parteds && |plan.lvs| <= |r.value.lvs| <= |plan.lvs| + 1
    ensures r.Failure? ==> r.error == MissingKey("name")
  {
    if vol.size <= 0 || !vol.vtype.LvVolume? then Ok(plan)
    else if vol.name.None? then Failure(MissingKey("name"))
    else
      var lv := Lv(vol.name.value, vgId, vol.size);
      var p := plan.AddLv(lv.name, lv.vg, lv.size);
      if IsMounted(vol) then Ok(p.AddFs(LvDeviceName(lv), vol.mount.value, FsType(vol), GetLabel(vol.diskLabel)))
      else Ok(p)
  }

  /** The volumes of one volume group, in declaration order. */
  function LvsFold(plan: Plan, vgId: string, vols: seq<Volume>): (r: Result<Plan, Error>)
    ensures r.Ok? ==> r.value.parteds == plan.parteds && |plan.lvs| <= |r.value.lvs| <= |plan.lvs| + |vols|
    ensures r.Failure? ==> r.error == MissingKey("name")
    decreases |vols|
  {
    if vols == [] then Ok(plan)
    else
      var p :- LvsFold(plan, vgId, vols[..|vols| - 1]);
      LvStep(p, vgId, vols[|vols| - 1])
  }

  /** The volume groups, in layout order. */
  function VgsFold(plan: Plan, vgs: seq<KsVg>): (r: Result<Plan, Error>)
    ensures r.Ok? ==> r.value.parteds == plan.parteds && |plan.lvs| <= |r.value.lvs|
    ensures r.Failure? ==> r.error == MissingKey("name")
    decreases |vgs|
  {
    if vgs == [] then Ok(plan)
    else
      var p :- VgsFold(plan, vgs[..|vgs| - 1]);
      LvsFold(p, vgs[|vgs| - 1].id, vgs[|vgs| - 1].volumes)
  }

  /** The partition scheme for a layout and the devices found on the node. */
  function PartitionSchemeSpec(spaces: seq<Space>, hus: seq<BlockDevice>): (r: Result<Plan, Error>)
    ensures r.Ok? ==> |r.value.parteds| == |KsDisks(spaces)|
    ensures r.Failure? ==> || r.error.DiskNotFound? || r.error == ZeroDivision
                           || r.error == MissingKey("vg") || r.error == MissingKey("name")
  {
    var disks := KsDisks(spaces);
    var osds := PartitionCount(disks, CephOsdName);
    var journals := PartitionCount(disks, CephJournalName);
    var b :- DisksFold(Builder(EmptyPlan(), osds), disks, hus, JournalRatio(osds, journals));
    VgsFold(b.plan, KsVgs(spaces))
  }

  datatype ImageData = ImageData(uri: string, format: string, container: string)

  /** The images for the file systems whose mount point the catalogue names. */
  function ImagesFor(fss: seq<Fs>, catalog: map<string, ImageData>): (r: seq<Image>)
    ensures |r| <= |fss|
    decreases |fss|
  {
    if fss == [] then []
    else
      var fs := fss[|fss| - 1];
      ImagesFor(fss[..|fss| - 1], catalog)
      + (if fs.mount in catalog
         then [Image(catalog[fs.mount].uri, fs.device, catalog[fs.mount].format, catalog[fs.mount].container)]
         else [])
  }

  /** A network interface of the node, with its name from the interfaces dictionary. */
  datatype Interface = Interface(name: string, macAddress: string, ipAddress: string, netmask: string)

  /** The admin-network part of the config-drive scheme. */
  datatype AdminNetwork = AdminNetwork(adminMac: string, adminIp: string, adminMask: string, adminIfaceName: string)

  function InterfacesWithMac(ifaces: seq<Interface>, mac: string): (r: seq<Interface>)
    ensures forall x :: x in r <==> x in ifaces && x.macAddress == mac
  {
    if ifaces == [] then []
    else
      assert forall x :: x in ifaces <==> x == ifaces[0] || x in ifaces[1..];
      (if ifaces[0].macAddress == mac then [ifaces[0]] else []) + InterfacesWithMac(ifaces[1..], mac)
  }

  /** The interface whose MAC address is the one the kernel options choose.
      `ifaces` lists the interfaces dictionary in its iteration order. */
  function AdminInterface(ifaces: seq<Interface>, chooseMac: string): (r: Result<Interface, Error>)
    ensures r.Ok? <==> exists i :: 0 <= i < |ifaces| && ifaces[i].macAddress == chooseMac
    ensures r.Ok? ==> r.value in ifaces && r.value.macAddress == chooseMac
    ensures r.Failure? ==> r.error == NoAdminInterface
  {
    var matching := InterfacesWithMac(ifaces, chooseMac);
    if matching == [] then
      assert forall i :: 0 <= i < |ifaces| ==> ifaces[i] in ifaces;
      Failure(NoAdminInterface)
    else
      assert matching[0] in matching;
      Ok(matching[0])
  }

  /** The admin fields of the config-drive scheme. */
  function ConfigdriveAdmin(ifaces: seq<Interface>, chooseMac: string): (r: Result<AdminNetwork, Error>)
    ensures r.Ok? <==> exists i :: 0 <= i < |ifaces| && ifaces[i].macAddress == chooseMac
    ensures r.Ok? ==>
              r.value.adminMac == chooseMac &&
              exists i :: 0 <= i < |ifaces| && ifaces[i].macAddress == chooseMac
                          && r.value.adminIp == ifaces[i].ipAddress
                          && r.value.adminMask == ifaces[i].netmask
                          && r.value.adminIfaceName == ifaces[i].name
  {
    var iface :- AdminInterface(ifaces, chooseMac);
    Ok(AdminNetwork(chooseMac, iface.ipAddress, iface.netmask, iface.name))
  }
}
