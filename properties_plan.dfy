/** Invariants of the partition scheme the driver builds: every file system,
    attachment and logical volume refers to something the scheme creates,
    every created size is positive, each declared disk gets its parted with
    the two boot partitions, there is exactly one config-drive partition,
    and the journal partitions cover the OSDs. */
module PlanProperties {
  import opened Wrappers
  import opened Scheme
  import opened NailgunLayout
  import opened Seqs

  /** `b` is `a` with partitions appended and nothing else changed. */
  ghost predicate PartedExtends(a: Parted, b: Parted) {
    && b.name == a.name
    && b.tableLabel == a.tableLabel
    && b.installBootloader == a.installBootloader
    && a.partitions <= b.partitions
  }

  /** `q` is `p` with entries appended: parteds, partitions, file systems,
      attachments and logical volumes are only ever added. */
  ghost predicate Extends(p: Plan, q: Plan) {
    && |p.parteds| <= |q.parteds|
    && (forall i :: 0 <= i < |p.parteds| ==> PartedExtends(p.parteds[i], q.parteds[i]))
    && p.fss <= q.fss
    && p.vgAttachments <= q.vgAttachments
    && p.mdAttachments <= q.mdAttachments
    && p.lvs <= q.lvs
  }

  /** `dev` names a partition or a logical volume that `plan` creates. */
  ghost predicate Names(plan: Plan, dev: DeviceRef) {
    match dev
    case PartitionDevice(disk, count) =>
      exists i :: 0 <= i < |plan.parteds| && plan.parteds[i].name == disk
                  && 1 <= count <= |plan.parteds[i].partitions|
    case LvDevice(vg, lv) =>
      exists j :: 0 <= j < |plan.lvs| && plan.lvs[j].vg == vg && plan.lvs[j].name == lv
  }

  /** What every scheme the driver hands on satisfies. */
  ghost predicate Sound(plan: Plan) {
    && (forall i, k :: 0 <= i < |plan.parteds| && 0 <= k < |plan.parteds[i].partitions|
                       ==> plan.parteds[i].partitions[k].size > 0.0)
    && (forall j :: 0 <= j < |plan.lvs| ==> plan.lvs[j].size > 0)
    && (forall f :: 0 <= f < |plan.fss| ==> plan.fss[f].mount != "none" && Names(plan, plan.fss[f].device))
    && (forall a :: 0 <= a < |plan.vgAttachments| ==>
                      plan.vgAttachments[a].pv.PartitionDevice? && Names(plan, plan.vgAttachments[a].pv))
    && (forall m :: 0 <= m < |plan.mdAttachments| ==>
                      plan.mdAttachments[m].mount != "none" && Names(plan, plan.mdAttachments[m].device))
  }

  lemma NamesExtends(p: Plan, q: Plan, dev: DeviceRef)
    requires Extends(p, q) && Names(p, dev)
    ensures Names(q, dev)
  {
    match dev
    case PartitionDevice(disk, count) =>
      var i :| 0 <= i < |p.parteds| && p.parteds[i].name == disk && 1 <= count <= |p.parteds[i].partitions|;
      assert PartedExtends(p.parteds[i], q.parteds[i]);
    case LvDevice(vg, lv) =>
      var j :| 0 <= j < |p.lvs| && p.lvs[j].vg == vg && p.lvs[j].name == lv;
      assert q.lvs[j] == p.lvs[j];
  }

  /** Whatever `p` refers to, an extension of `p` still has. */
  lemma {:induction false} ReferencesSurvive(p: Plan, q: Plan)
    requires Extends(p, q) && Sound(p)
    ensures forall f :: 0 <= f < |p.fss| ==> Names(q, p.fss[f].device)
    ensures forall a :: 0 <= a < |p.vgAttachments| ==> Names(q, p.vgAttachments[a].pv)
    ensures forall m :: 0 <= m < |p.mdAttachments| ==> Names(q, p.mdAttachments[m].device)
  {
    forall f | 0 <= f < |p.fss| ensures Names(q, p.fss[f].device) {
      NamesExtends(p, q, p.fss[f].device);
    }
    forall a | 0 <= a < |p.vgAttachments| ensures Names(q, p.vgAttachments[a].pv) {
      NamesExtends(p, q, p.vgAttachments[a].pv);
    }
    forall m | 0 <= m < |p.mdAttachments| ensures Names(q, p.mdAttachments[m].device) {
      NamesExtends(p, q, p.mdAttachments[m].device);
    }
  }

  /** A new partition on the last parted: the scheme only grows, the new
      partition's name refers to it, and soundness is kept when it has a
      positive size. */
  lemma AddPartitionSound(plan: Plan, size: real, flags: seq<string>, guid: Option<string>, configdrive: bool)
    requires plan.parteds != []
    ensures var r := plan.AddPartition(size, flags, guid, configdrive);
            && Extends(plan, r)
            && r.parteds[..|r.parteds| - 1] == plan.parteds[..|plan.parteds| - 1]
            && r.LastParted().partitions == plan.LastParted().partitions + [Partition(size, flags, guid, configdrive)]
            && Names(r, r.LastPartitionName())
            && (Sound(plan) && size > 0.0 ==> Sound(r))
  {
    var r := plan.AddPartition(size, flags, guid, configdrive);
    var n := |plan.parteds|;
    forall i | 0 <= i < n ensures PartedExtends(plan.parteds[i], r.parteds[i]) {
      if i < n - 1 {
        assert r.parteds[i] == r.parteds[..n - 1][i];
      }
    }
    assert r.parteds[n - 1].name == r.LastPartitionName().disk;
    if Sound(plan) && size > 0.0 {
      ReferencesSurvive(plan, r);
      forall i, k | 0 <= i < n && 0 <= k < |r.parteds[i].partitions|
        ensures r.parteds[i].partitions[k].size > 0.0
      {
        if i < n - 1 {
          assert r.parteds[i] == r.parteds[..n - 1][i];
        }
      }
    }
  }

  /** `n` copies of a partition. */
  function Copies(n: nat, p: Partition): (r: seq<Partition>)
    ensures |r| == n && forall k :: 0 <= k < n ==> r[k] == p
  {
    if n == 0 then [] else Copies(n - 1, p) + [p]
  }

  lemma ExtendsTransitive(p: Plan, q: Plan, r: Plan)
    requires Extends(p, q) && Extends(q, r)
    ensures Extends(p, r)
  {
    forall i | 0 <= i < |p.parteds| ensures PartedExtends(p.parteds[i], r.parteds[i]) {
      assert PartedExtends(p.parteds[i], q.parteds[i]);
      assert PartedExtends(q.parteds[i], r.parteds[i]);
    }
  }

  /** The journal loop only adds to the scheme. */
  lemma {:induction false} JournalLoopExtends(plan: Plan, n: nat, size: real, guid: Option<string>, carve: bool)
    requires plan.parteds != []
    ensures Extends(plan, JournalLoop(plan, n, size, guid, carve))
  {
    if n > 0 {
      var p := JournalLoop(plan, n - 1, size, guid, carve);
      JournalLoopExtends(plan, n - 1, size, guid, carve);
      if carve {
        AddPartitionSound(p, size, [], guid, false);
        ExtendsTransitive(plan, p, p.AddPartition(size, [], guid, false));
      }
    }
  }

  /** The journal loop appends `n` equal partitions to the last parted when
      it carves, and nothing at all otherwise. */
  lemma {:induction false} JournalLoopShape(plan: Plan, n: nat, size: real, guid: Option<string>, carve: bool)
    requires plan.parteds != []
    ensures var r := JournalLoop(plan, n, size, guid, carve);
            && r.parteds[..|r.parteds| - 1] == plan.parteds[..|plan.parteds| - 1]
            && r.LastParted()
               == plan.LastParted().(partitions := plan.LastParted().partitions
                                       + (if carve then Copies(n, Partition(size, [], guid, false)) else []))
            && r.fss == plan.fss && r.vgAttachments == plan.vgAttachments
            && r.mdAttachments == plan.mdAttachments && r.lvs == plan.lvs
  {
    if n > 0 {
      var x := Partition(size, [], guid, false);
      var p := JournalLoop(plan, n - 1, size, guid, carve);
      JournalLoopShape(plan, n - 1, size, guid, carve);
      if carve {
        var r := p.AddPartition(size, [], guid, false);
        assert r.LastParted().partitions == p.LastParted().partitions + [x];
        assert Copies(n, x) == Copies(n - 1, x) + [x];
        assert r.LastParted().partitions == plan.LastParted().partitions + Copies(n, x);
        assert r.LastParted() == p.LastParted().(partitions := r.LastParted().partitions);
      }
    }
  }

  /** Journal partitions are never config-drive partitions, and they keep
      the scheme sound when the journal volume has a positive size. */
  lemma {:induction false} JournalLoopSound(plan: Plan, n: nat, size: real, guid: Option<string>, carve: bool)
    requires plan.parteds != []
    ensures var r := JournalLoop(plan, n, size, guid, carve);
            && ConfigdriveDevices(r.parteds) == ConfigdriveDevices(plan.parteds)
            && (Sound(plan) && size > 0.0 ==> Sound(r))
  {
    if n > 0 {
      var p := JournalLoop(plan, n - 1, size, guid, carve);
      JournalLoopSound(plan, n - 1, size, guid, carve);
      if carve {
        AddPartitionSound(p, size, [], guid, false);
        AddPartitionConfigdrive(p, size, [], guid, false);
      }
    }
  }

  lemma JournalSizePositive(size: int, ratio: nat)
    requires size > 0 && ratio > 0
    ensures JournalSize(size, ratio) > 0.0
  {
    var r := JournalSize(size, ratio);
    assert r == MaxJournalSize || r == size as real / ratio as real;
  }

  lemma ExtendsReflexive(p: Plan)
    ensures Extends(p, p)
  {
  }

  lemma AddFsSound(plan: Plan, dev: DeviceRef, mount: string, fsType: string, fsLabel: string)
    requires Names(plan, dev) && mount != "none"
    ensures Extends(plan, plan.AddFs(dev, mount, fsType, fsLabel))
    ensures Sound(plan) ==> Sound(plan.AddFs(dev, mount, fsType, fsLabel))
  {
    ExtendsReflexive(plan);
  }

  lemma VgAttachSound(plan: Plan, pv: DeviceRef, vg: string)
    requires Names(plan, pv) && pv.PartitionDevice?
    ensures Extends(plan, plan.VgAttachByName(pv, vg))
    ensures Sound(plan) ==> Sound(plan.VgAttachByName(pv, vg))
  {
    ExtendsReflexive(plan);
  }

  lemma MdAttachSound(plan: Plan, dev: DeviceRef, mount: string, fsType: string, fsLabel: string)
    requires Names(plan, dev) && mount != "none"
    ensures Extends(plan, plan.MdAttachByMount(dev, mount, fsType, fsLabel))
    ensures Sound(plan) ==> Sound(plan.MdAttachByMount(dev, mount, fsType, fsLabel))
  {
    ExtendsReflexive(plan);
  }

  /** What one declared volume may do to the scheme: add to it, touch only
      the parted being planned, add no config-drive partition and keep it
      sound. */
  ghost predicate VolumeEffect(p: Plan, q: Plan)
    requires p.parteds != [] && |q.parteds| == |p.parteds|
  {
    && Extends(p, q)
    && q.parteds[..|q.parteds| - 1] == p.parteds[..|p.parteds| - 1]
    && q.lvs == p.lvs
    && ConfigdriveDevices(q.parteds) == ConfigdriveDevices(p.parteds)
    && (Sound(p) ==> Sound(q))
  }

  lemma JournalVolumeEffect(b: Builder, vol: Volume, ratio: nat)
    requires b.plan.parteds != []
    requires vol.size > 0 && vol.name == Some(CephJournalName) && ratio > 0
    ensures VolumeStep(b, vol, ratio).Ok?
    ensures VolumeEffect(b.plan, VolumeStep(b, vol, ratio).value.plan)
  {
    var size := JournalSize(vol.size, ratio);
    var end := JournalEnd(ratio, b.journalsLeft);
    var carve := vol.vtype == PartitionVolume;
    JournalSizePositive(vol.size, ratio);
    JournalLoopExtends(b.plan, end, size, vol.partitionGuid, carve);
    JournalLoopShape(b.plan, end, size, vol.partitionGuid, carve);
    JournalLoopSound(b.plan, end, size, vol.partitionGuid, carve);
  }

  lemma PlainVolumeEffect(b: Builder, vol: Volume, ratio: nat)
    requires b.plan.parteds != []
    requires vol.size > 0 && vol.name != Some(CephJournalName)
    requires VolumeStep(b, vol, ratio).Ok?
    ensures VolumeEffect(b.plan, VolumeStep(b, vol, ratio).value.plan)
  {
    if CarvesPartition(vol.vtype) {
      var guid := if vol.vtype == PartitionVolume then vol.partitionGuid else None;
      AddPartitionSound(b.plan, vol.size as real, [], guid, false);
      AddPartitionConfigdrive(b.plan, vol.size as real, [], guid, false);
      var plan := b.plan.AddPartition(vol.size as real, [], guid, false);
      var prt := plan.LastPartitionName();
      var fsLabel := GetLabel(vol.diskLabel);
      match vol.vtype {
        case PartitionVolume =>
          if IsMounted(vol) {
            AddFsSound(plan, prt, vol.mount.value, FsType(vol), fsLabel);
            ExtendsTransitive(b.plan, plan, plan.AddFs(prt, vol.mount.value, FsType(vol), fsLabel));
          }
        case PvVolume =>
          VgAttachSound(plan, prt, vol.vg.value);
          ExtendsTransitive(b.plan, plan, plan.VgAttachByName(prt, vol.vg.value));
        case RaidVolume =>
          if IsMounted(vol) {
            MdAttachSound(plan, prt, vol.mount.value, FsType(vol), fsLabel);
            ExtendsTransitive(b.plan, plan, plan.MdAttachByMount(prt, vol.mount.value, FsType(vol), fsLabel));
          }
      }
    } else {
      ExtendsReflexive(b.plan);
    }
  }

  lemma VolumeStepEffect(b: Builder, vol: Volume, ratio: nat)
    requires b.plan.parteds != []
    requires VolumeStep(b, vol, ratio).Ok?
    ensures VolumeEffect(b.plan, VolumeStep(b, vol, ratio).value.plan)
  {
    if vol.size <= 0 {
      ExtendsReflexive(b.plan);
    } else if vol.name == Some(CephJournalName) {
      JournalVolumeEffect(b, vol, ratio);
    } else {
      PlainVolumeEffect(b, vol, ratio);
    }
  }

  lemma VolumeEffectTransitive(p: Plan, q: Plan, r: Plan)
    requires p.parteds != [] && |q.parteds| == |p.parteds| && |r.parteds| == |p.parteds|
    requires VolumeEffect(p, q) && VolumeEffect(q, r)
    ensures VolumeEffect(p, r)
  {
    ExtendsTransitive(p, q, r);
  }

  /** The declared volumes of a disk, together, have the effect of one. */
  lemma {:induction false} VolumesFoldEffect(b: Builder, vols: seq<Volume>, ratio: nat)
    requires b.plan.parteds != []
    requires VolumesFold(b, vols, ratio).Ok?
    ensures VolumeEffect(b.plan, VolumesFold(b, vols, ratio).value.plan)
    decreases |vols|
  {
    if vols == [] {
      ExtendsReflexive(b.plan);
    } else {
      var b' := VolumesFold(b, vols[..|vols| - 1], ratio).value;
      VolumesFoldEffect(b, vols[..|vols| - 1], ratio);
      VolumeStepEffect(b', vols[|vols| - 1], ratio);
      VolumeEffectTransitive(b.plan, b'.plan, VolumesFold(b, vols, ratio).value.plan);
    }
  }

  /** `a` less `c`, stopping at zero. */
  function Sub(a: nat, c: nat): nat {
    if a > c then a - c else 0
  }

  /** The journal partitions still owed after `count` journal volumes have
      each taken up to `ratio` of them. */
  function Owed(before: nat, count: nat, ratio: nat): nat {
    if count == 0 then before else Sub(Owed(before, count - 1, ratio), ratio)
  }

  lemma {:induction false} OwedAdd(before: nat, c1: nat, c2: nat, ratio: nat)
    ensures Owed(Owed(before, c1, ratio), c2, ratio) == Owed(before, c1 + c2, ratio)
  {
    if c2 > 0 {
      OwedAdd(before, c1, c2 - 1, ratio);
    }
  }

  /** Each of `count` journal volumes takes `ratio` partitions until none is owed. */
  lemma {:induction false} OwedClosedForm(before: nat, count: nat, ratio: nat)
    ensures Owed(before, count, ratio) == Sub(before, count * ratio)
  {
    if count > 0 {
      OwedClosedForm(before, count - 1, ratio);
      assert count * ratio == (count - 1) * ratio + ratio;
    }
  }

  /** Placing the journal partitions of `count` journal volumes takes the
      number of journal partitions still owed from `before` to `after`; any
      journal volume at all needs a ratio to divide by. */
  ghost predicate JournalsPlaced(count: nat, ratio: nat, before: nat, after: nat) {
    && (count > 0 ==> ratio > 0)
    && after == Owed(before, count, ratio)
  }

  lemma JournalsPlacedStep(count: nat, ratio: nat, before: nat, middle: nat, extra: nat, after: nat)
    requires JournalsPlaced(count, ratio, before, middle)
    requires JournalsPlaced(extra, ratio, middle, after)
    ensures JournalsPlaced(count + extra, ratio, before, after)
  {
    if count > 0 && extra > 0 {
      OwedAdd(before, count, extra, ratio);
    }
  }

  /** Every journal volume of a disk takes `ratio` journal partitions off
      the number still owed, until none is owed. */
  lemma {:induction false} VolumesFoldJournals(b: Builder, vols: seq<Volume>, ratio: nat)
    requires b.plan.parteds != []
    requires VolumesFold(b, vols, ratio).Ok?
    ensures JournalsPlaced(|NamedVolumes(vols, CephJournalName)|, ratio,
                           b.journalsLeft, VolumesFold(b, vols, ratio).value.journalsLeft)
    decreases |vols|
  {
    if vols != [] {
      var init := vols[..|vols| - 1];
      var vol := vols[|vols| - 1];
      var b' := VolumesFold(b, init, ratio).value;
      var b'' := VolumesFold(b, vols, ratio).value;
      VolumesFoldJournals(b, init, ratio);
      var extra := if vol.name == Some(CephJournalName) && vol.size > 0 then 1 else 0;
      assert JournalsPlaced(extra, ratio, b'.journalsLeft, b''.journalsLeft);
      JournalsPlacedStep(|NamedVolumes(init, CephJournalName)|, ratio,
                         b.journalsLeft, b'.journalsLeft, extra, b''.journalsLeft);
    }
  }

  const BootPartition: Partition := Partition(BootSize, [BiosGrubFlag], None, false)
  const UefiPartition: Partition := Partition(UefiSize, [], None, false)
  const ConfigdrivePartition: Partition := Partition(ConfigdriveSize, [], None, true)

  /** The parted of device `dev`: a GPT label, the bootloader, and the
      legacy boot and UEFI partitions first. */
  ghost predicate Shaped(p: Parted, dev: string) {
    && p.name == dev
    && p.tableLabel == GptLabel
    && p.installBootloader
    && |p.partitions| >= 2
    && p.partitions[0] == BootPartition
    && p.partitions[1] == UefiPartition
  }

  /** What a disk starts with, before its volumes. */
  lemma NewPartedEffect(plan: Plan, dev: string)
    ensures plan.AddParted(dev, GptLabel).SetInstallBootloader()
                .AddPartition(BootSize, [BiosGrubFlag], None, false)
                .AddPartition(UefiSize, [], None, false)
            == plan.(parteds := plan.parteds + [Parted(dev, GptLabel, true, [BootPartition, UefiPartition])])
  {
    var p0 := plan.AddParted(dev, GptLabel);
    var p1 := p0.SetInstallBootloader();
    var p2 := p1.AddPartition(BootSize, [BiosGrubFlag], None, false);
    var p3 := p2.AddPartition(UefiSize, [], None, false);
    var n := |plan.parteds|;
    assert p1.parteds == plan.parteds + [Parted(dev, GptLabel, true, [])];
    assert p1.parteds[..n] == plan.parteds;
    assert [] + [BootPartition] == [BootPartition];
    assert p2.parteds == plan.parteds + [Parted(dev, GptLabel, true, [BootPartition])];
    assert p2.parteds[..n] == plan.parteds;
    assert [BootPartition] + [UefiPartition] == [BootPartition, UefiPartition];
    assert p3.parteds == plan.parteds + [Parted(dev, GptLabel, true, [BootPartition, UefiPartition])];
  }

  lemma NewPartedSound(plan: Plan, dev: string)
    ensures var q := plan.(parteds := plan.parteds + [Parted(dev, GptLabel, true, [BootPartition, UefiPartition])]);
            && Extends(plan, q)
            && ConfigdriveDevices(q.parteds) == ConfigdriveDevices(plan.parteds)
            && (Sound(plan) ==> Sound(q))
  {
    var q := plan.(parteds := plan.parteds + [Parted(dev, GptLabel, true, [BootPartition, UefiPartition])]);
    assert q.parteds[..|plan.parteds|] == plan.parteds;
    ConfigdriveDevicesSnoc(plan.parteds, Parted(dev, GptLabel, true, [BootPartition, UefiPartition]));
    assert Flagged(dev, [BootPartition, UefiPartition]) == [] by {
      FlaggedAppend(dev, [], BootPartition);
      FlaggedAppend(dev, [BootPartition], UefiPartition);
      assert [] + [BootPartition] == [BootPartition];
      assert [BootPartition] + [UefiPartition] == [BootPartition, UefiPartition];
    }
    assert Extends(plan, q);
    if Sound(plan) {
      ReferencesSurvive(plan, q);
    }
  }

  lemma ShapedExtends(a: Parted, b: Parted, dev: string)
    requires Shaped(a, dev) && PartedExtends(a, b)
    ensures Shaped(b, dev)
  {
    assert b.partitions[..|a.partitions|] == a.partitions;
    assert b.partitions[0] == a.partitions[0] && b.partitions[1] == a.partitions[1];
  }

  lemma ConfigdriveDeviceNone(plan: Plan)
    ensures plan.ConfigdriveDevice().None? <==> ConfigdriveDevices(plan.parteds) == []
  {
  }

  /** One declared disk adds one parted, for the device the disk resolves
      to, shaped as every parted is, and leaves the earlier parteds alone. */
  lemma DiskStepShape(b: Builder, disk: KsDisk, hus: seq<BlockDevice>, ratio: nat)
    requires DiskStep(b, disk, hus, ratio).Ok?
    ensures var q := DiskStep(b, disk, hus, ratio).value.plan;
            var n := |b.plan.parteds|;
            && DiskDev(disk, hus).Ok?
            && Extends(b.plan, q)
            && q.parteds[..n] == b.plan.parteds
            && q.lvs == b.plan.lvs
            && Shaped(q.parteds[n], DiskDev(disk, hus).value)
            && (Sound(b.plan) ==> Sound(q))
  {
    var n := |b.plan.parteds|;
    var dev := DiskDev(disk, hus).value;
    var start := b.plan.(parteds := b.plan.parteds + [Parted(dev, GptLabel, true, [BootPartition, UefiPartition])]);
    NewPartedEffect(b.plan, dev);
    NewPartedSound(b.plan, dev);
    assert start.parteds[..n] == b.plan.parteds;
    var b' := VolumesFold(Builder(start, b.journalsLeft), disk.volumes, ratio).value;
    VolumesFoldEffect(Builder(start, b.journalsLeft), disk.volumes, ratio);
    ExtendsTransitive(b.plan, start, b'.plan);
    assert b'.plan.parteds[..n] == b.plan.parteds by {
      assert b'.plan.parteds[..n] == b'.plan.parteds[..n + 1 - 1][..n];
    }
    assert PartedExtends(start.parteds[n], b'.plan.parteds[n]);
    ShapedExtends(start.parteds[n], b'.plan.parteds[n], dev);
    if b'.plan.ConfigdriveDevice().None? {
      var q := b'.plan.AddPartition(ConfigdriveSize, [], None, true);
      AddPartitionSound(b'.plan, ConfigdriveSize, [], None, true);
      ExtendsTransitive(b.plan, b'.plan, q);
      assert q.parteds[..n] == b.plan.parteds by {
        assert q.parteds[..n] == q.parteds[..n + 1 - 1];
        assert b'.plan.parteds[..n] == b'.plan.parteds[..n + 1 - 1];
      }
      ShapedExtends(b'.plan.parteds[n], q.parteds[n], dev);
    }
  }

  /** The first disk gets the config-drive partition as its last partition;
      every later disk leaves the config-drive partitions as they are. */
  lemma DiskStepConfigdrive(b: Builder, disk: KsDisk, hus: seq<BlockDevice>, ratio: nat)
    requires DiskStep(b, disk, hus, ratio).Ok?
    ensures var q := DiskStep(b, disk, hus, ratio).value.plan;
            var last := q.LastParted();
            && (ConfigdriveDevices(b.plan.parteds) == [] ==>
                  && ConfigdriveDevices(q.parteds) == [PartitionDevice(last.name, |last.partitions|)]
                  && |last.partitions| > 0
                  && last.partitions[|last.partitions| - 1] == ConfigdrivePartition)
            && (ConfigdriveDevices(b.plan.parteds) != [] ==>
                  ConfigdriveDevices(q.parteds) == ConfigdriveDevices(b.plan.parteds))
  {
    var dev := DiskDev(disk, hus).value;
    var start := b.plan.(parteds := b.plan.parteds + [Parted(dev, GptLabel, true, [BootPartition, UefiPartition])]);
    NewPartedEffect(b.plan, dev);
    NewPartedSound(b.plan, dev);
    var b' := VolumesFold(Builder(start, b.journalsLeft), disk.volumes, ratio).value;
    VolumesFoldEffect(Builder(start, b.journalsLeft), disk.volumes, ratio);
    ConfigdriveDeviceNone(b'.plan);
    if b'.plan.ConfigdriveDevice().None? {
      AddPartitionSound(b'.plan, ConfigdriveSize, [], None, true);
      AddPartitionConfigdrive(b'.plan, ConfigdriveSize, [], None, true);
    }
  }

  /** A disk places the journal partitions of its own journal volumes. */
  lemma DiskStepJournals(b: Builder, disk: KsDisk, hus: seq<BlockDevice>, ratio: nat)
    requires DiskStep(b, disk, hus, ratio).Ok?
    ensures JournalsPlaced(|NamedVolumes(disk.volumes, CephJournalName)|, ratio,
                           b.journalsLeft, DiskStep(b, disk, hus, ratio).value.journalsLeft)
  {
    var dev := DiskDev(disk, hus).value;
    var start := b.plan.(parteds := b.plan.parteds + [Parted(dev, GptLabel, true, [BootPartition, UefiPartition])]);
    NewPartedEffect(b.plan, dev);
    VolumesFoldJournals(Builder(start, b.journalsLeft), disk.volumes, ratio);
  }

  lemma DisksFoldLast(b: Builder, disks: seq<KsDisk>, hus: seq<BlockDevice>, ratio: nat)
    requires disks != []
    requires DisksFold(b, disks, hus, ratio).Ok?
    ensures DisksFold(b, disks[..|disks| - 1], hus, ratio).Ok?
    ensures DiskStep(DisksFold(b, disks[..|disks| - 1], hus, ratio).value, disks[|disks| - 1], hus, ratio)
            == DisksFold(b, disks, hus, ratio)
  {
  }

  lemma DiskStepJournalsAfter(b: Builder, b': Builder, last: KsDisk, hus: seq<BlockDevice>, ratio: nat, count: nat)
    requires JournalsPlaced(count, ratio, b.journalsLeft, b'.journalsLeft)
    requires DiskStep(b', last, hus, ratio).Ok?
    ensures JournalsPlaced(count + |NamedVolumes(last.volumes, CephJournalName)|, ratio,
                           b.journalsLeft, DiskStep(b', last, hus, ratio).value.journalsLeft)
  {
    DiskStepJournals(b', last, hus, ratio);
    JournalsPlacedStep(count, ratio, b.journalsLeft, b'.journalsLeft,
                       |NamedVolumes(last.volumes, CephJournalName)|,
                       DiskStep(b', last, hus, ratio).value.journalsLeft);
  }

  /** The fold over `init + [last]` is the fold over `init` followed by `last`. */
  lemma DisksFoldSnoc(b: Builder, init: seq<KsDisk>, last: KsDisk, hus: seq<BlockDevice>, ratio: nat)
    ensures DisksFold(b, init + [last], hus, ratio)
            == if DisksFold(b, init, hus, ratio).Failure? then Failure(DisksFold(b, init, hus, ratio).error)
               else DiskStep(DisksFold(b, init, hus, ratio).value, last, hus, ratio)
  {
    assert (init + [last])[..|init|] == init;
  }

  /** The last disk adds its own journal volumes to what the earlier disks placed. */
  lemma DiskStepJournalsSnoc(b: Builder, mid: Builder, res: Result<Builder, Error>, init: seq<KsDisk>, last: KsDisk,
                             hus: seq<BlockDevice>, ratio: nat)
    requires DiskStep(mid, last, hus, ratio) == res && res.Ok?
    requires JournalsPlaced(PartitionCount(init, CephJournalName), ratio, b.journalsLeft, mid.journalsLeft)
    ensures JournalsPlaced(PartitionCount(init + [last], CephJournalName), ratio, b.journalsLeft, res.value.journalsLeft)
  {
    PartitionCountSnoc(init, last, CephJournalName);
    DiskStepJournalsAfter(b, mid, last, hus, ratio, PartitionCount(init, CephJournalName));
  }

  lemma PartitionCountSnoc(init: seq<KsDisk>, last: KsDisk, name: string)
    ensures PartitionCount(init + [last], name) == PartitionCount(init, name) + |NamedVolumes(last.volumes, name)|
  {
    assert (init + [last])[..|init|] == init;
  }

  /** All the disks together place the journal partitions of all journal volumes. */
  lemma {:induction false} DisksFoldJournals(b: Builder, disks: seq<KsDisk>, hus: seq<BlockDevice>, ratio: nat)
    requires DisksFold(b, disks, hus, ratio).Ok?
    ensures JournalsPlaced(PartitionCount(disks, CephJournalName), ratio,
                           b.journalsLeft, DisksFold(b, disks, hus, ratio).value.journalsLeft)
    decreases |disks|, 1
  {
    if disks != [] {
      SplitLast(disks);
      DisksFoldJournalsAfter(b, disks, disks[..|disks| - 1], disks[|disks| - 1], hus, ratio);
    }
  }

  lemma {:induction false} DisksFoldJournalsAfter(b: Builder, disks: seq<KsDisk>, init: seq<KsDisk>, last: KsDisk,
                                                  hus: seq<BlockDevice>, ratio: nat)
    requires disks == init + [last]
    requires DisksFold(b, disks, hus, ratio).Ok?
    ensures JournalsPlaced(PartitionCount(disks, CephJournalName), ratio,
                           b.journalsLeft, DisksFold(b, disks, hus, ratio).value.journalsLeft)
    decreases |init| + 1, 0
  {
    DisksFoldSnoc(b, init, last, hus, ratio);
    DisksFoldJournals(b, init, hus, ratio);
    DiskStepJournalsSnoc(b, DisksFold(b, init, hus, ratio).value, DisksFold(b, disks, hus, ratio), init, last, hus, ratio);
  }

  /** What the disks `disks` do to the scheme `p`, leaving `q`: parted
      `|p.parteds| + k` is the one of disk `k`, the earlier parteds stay as
      they were, and soundness is kept. */
  ghost predicate DisksEffect(p: Plan, q: Plan, disks: seq<KsDisk>, hus: seq<BlockDevice>) {
    && |q.parteds| == |p.parteds| + |disks|
    && Extends(p, q)
    && q.parteds[..|p.parteds|] == p.parteds
    && q.lvs == p.lvs
    && (forall k :: 0 <= k < |disks| ==>
          DiskDev(disks[k], hus).Ok? && Shaped(q.parteds[|p.parteds| + k], DiskDev(disks[k], hus).value))
    && (Sound(p) ==> Sound(q))
  }

  /** The effect of the disks before the last, followed by the last disk's. */
  lemma DisksEffectSnoc(p: Plan, m: Plan, q: Plan, disks: seq<KsDisk>, hus: seq<BlockDevice>)
    requires disks != []
    requires DisksEffect(p, m, disks[..|disks| - 1], hus)
    requires |q.parteds| == |m.parteds| + 1 && Extends(m, q) && q.parteds[..|m.parteds|] == m.parteds && q.lvs == m.lvs
    requires DiskDev(disks[|disks| - 1], hus).Ok?
    requires Shaped(q.parteds[|m.parteds|], DiskDev(disks[|disks| - 1], hus).value)
    requires Sound(m) ==> Sound(q)
    ensures DisksEffect(p, q, disks, hus)
  {
    var init := disks[..|disks| - 1];
    var n := |p.parteds|;
    var m' := |m.parteds|;
    ExtendsTransitive(p, m, q);
    assert q.parteds[..n] == p.parteds by {
      assert q.parteds[..n] == q.parteds[..m'][..n];
    }
    forall k | 0 <= k < |disks|
      ensures DiskDev(disks[k], hus).Ok? && Shaped(q.parteds[n + k], DiskDev(disks[k], hus).value)
    {
      if k < |disks| - 1 {
        assert disks[k] == init[k];
        assert q.parteds[n + k] == q.parteds[..m'][n + k];
      }
    }
  }

  lemma DiskStepEffectAfter(p: Plan, b': Builder, disks: seq<KsDisk>, hus: seq<BlockDevice>, ratio: nat)
    requires disks != []
    requires DisksEffect(p, b'.plan, disks[..|disks| - 1], hus)
    requires DiskStep(b', disks[|disks| - 1], hus, ratio).Ok?
    ensures DisksEffect(p, DiskStep(b', disks[|disks| - 1], hus, ratio).value.plan, disks, hus)
  {
    DiskStepShape(b', disks[|disks| - 1], hus, ratio);
    DisksEffectSnoc(p, b'.plan, DiskStep(b', disks[|disks| - 1], hus, ratio).value.plan, disks, hus);
  }

  /** The disks in layout order, one parted each. */
  lemma {:induction false} DisksFoldShape(b: Builder, disks: seq<KsDisk>, hus: seq<BlockDevice>, ratio: nat)
    requires DisksFold(b, disks, hus, ratio).Ok?
    ensures DisksEffect(b.plan, DisksFold(b, disks, hus, ratio).value.plan, disks, hus)
    decreases |disks|
  {
    if disks == [] {
      ExtendsReflexive(b.plan);
    } else {
      var init := disks[..|disks| - 1];
      DisksFoldLast(b, disks, hus, ratio);
      DisksFoldShape(b, init, hus, ratio);
      DiskStepEffectAfter(b.plan, DisksFold(b, init, hus, ratio).value, disks, hus, ratio);
    }
  }

  /** The config-drive partitions after disks `disks`, starting from a
      scheme with none: none without disks, otherwise exactly one, the last
      partition of the first disk's parted. */
  ghost predicate OneConfigdrive(p: Plan, q: Plan, disks: seq<KsDisk>)
    requires |q.parteds| == |p.parteds| + |disks|
  {
    && (disks == [] ==> ConfigdriveDevices(q.parteds) == [])
    && (disks != [] ==>
          var first := q.parteds[|p.parteds|];
          && ConfigdriveDevices(q.parteds) == [PartitionDevice(first.name, |first.partitions|)]
          && |first.partitions| > 0
          && first.partitions[|first.partitions| - 1] == ConfigdrivePartition)
  }

  lemma DiskStepConfigdriveAfter(p: Plan, b': Builder, disks: seq<KsDisk>, hus: seq<BlockDevice>, ratio: nat)
    requires disks != [] && ConfigdriveDevices(p.parteds) == []
    requires |b'.plan.parteds| == |p.parteds| + |disks| - 1
    requires OneConfigdrive(p, b'.plan, disks[..|disks| - 1])
    requires DiskStep(b', disks[|disks| - 1], hus, ratio).Ok?
    ensures OneConfigdrive(p, DiskStep(b', disks[|disks| - 1], hus, ratio).value.plan, disks)
  {
    var q := DiskStep(b', disks[|disks| - 1], hus, ratio).value.plan;
    DiskStepConfigdrive(b', disks[|disks| - 1], hus, ratio);
    if |disks| > 1 {
      DiskStepShape(b', disks[|disks| - 1], hus, ratio);
      assert q.parteds[|p.parteds|] == q.parteds[..|b'.plan.parteds|][|p.parteds|];
    }
  }

  /** Exactly one config-drive partition, on the first disk, whatever the
      number of disks. */
  lemma {:induction false} DisksFoldConfigdrive(b: Builder, disks: seq<KsDisk>, hus: seq<BlockDevice>, ratio: nat)
    requires ConfigdriveDevices(b.plan.parteds) == []
    requires DisksFold(b, disks, hus, ratio).Ok?
    ensures OneConfigdrive(b.plan, DisksFold(b, disks, hus, ratio).value.plan, disks)
    decreases |disks|
  {
    if disks != [] {
      var init := disks[..|disks| - 1];
      DisksFoldLast(b, disks, hus, ratio);
      DisksFoldConfigdrive(b, init, hus, ratio);
      DiskStepConfigdriveAfter(b.plan, DisksFold(b, init, hus, ratio).value, disks, hus, ratio);
    }
  }
}
