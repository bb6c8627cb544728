/** The Nailgun driver's planning methods. Each fills in a scheme object
    step by step, in the order the driver does, and is proved to produce
    what the functions of NailgunLayout specify. */
module Nailgun {
  import opened Wrappers
  import opened Scheme
  import opened NailgunLayout

  /** Counts, disk by disk, the volumes called `name` of positive size. */
  method GetPartitionCount(disks: seq<KsDisk>, name: string) returns (count: nat)
    ensures count == PartitionCount(disks, name)
  {
    count := 0;
    for i := 0 to |disks|
      invariant count == PartitionCount(disks[..i], name)
    {
      assert disks[..i + 1][..i] == disks[..i];
      count := count + |NamedVolumes(disks[i].volumes, name)|;
    }
    assert disks[..|disks|] == disks;
  }

  // Once a prefix of a fold has failed, the whole fold fails with the same error.

  lemma {:induction false} VolumesFoldStops(b: Builder, vols: seq<Volume>, j: nat, ratio: nat, e: Error)
    requires b.plan.parteds != [] && j < |vols|
    requires VolumesFold(b, vols[..j + 1], ratio) == Failure(e)
    ensures VolumesFold(b, vols, ratio) == Failure(e)
    decreases |vols| - j
  {
    if j + 1 < |vols| {
      assert vols[..j + 2][..j + 1] == vols[..j + 1];
      VolumesFoldStops(b, vols, j + 1, ratio, e);
    } else {
      assert vols[..j + 1] == vols;
    }
  }

  lemma DisksFoldFails(b: Builder, disks: seq<KsDisk>, hus: seq<BlockDevice>, ratio: nat, e: Error)
    requires disks != []
    requires DisksFold(b, disks[..|disks| - 1], hus, ratio) == Failure(e)
    ensures DisksFold(b, disks, hus, ratio) == Failure(e)
  {
  }

  lemma {:induction false} DisksFoldStops(b: Builder, disks: seq<KsDisk>, i: nat, hus: seq<BlockDevice>, ratio: nat, e: Error)
    requires i < |disks|
    requires DisksFold(b, disks[..i + 1], hus, ratio) == Failure(e)
    ensures DisksFold(b, disks, hus, ratio) == Failure(e)
    decreases |disks| - i
  {
    if i + 1 < |disks| {
      assert disks[..i + 2][..i + 1] == disks[..i + 1];
      DisksFoldFails(b, disks[..i + 2], hus, ratio, e);
      DisksFoldStops(b, disks, i + 1, hus, ratio, e);
    } else {
      assert disks[..i + 1] == disks;
    }
  }

  lemma {:induction false} LvsFoldStops(plan: Plan, vgId: string, vols: seq<Volume>, j: nat, e: Error)
    requires j < |vols|
    requires LvsFold(plan, vgId, vols[..j + 1]) == Failure(e)
    ensures LvsFold(plan, vgId, vols) == Failure(e)
    decreases |vols| - j
  {
    if j + 1 < |vols| {
      assert vols[..j + 2][..j + 1] == vols[..j + 1];
      LvsFoldStops(plan, vgId, vols, j + 1, e);
    } else {
      assert vols[..j + 1] == vols;
    }
  }

  lemma {:induction false} VgsFoldStops(plan: Plan, vgs: seq<KsVg>, i: nat, e: Error)
    requires i < |vgs|
    requires VgsFold(plan, vgs[..i + 1]) == Failure(e)
    ensures VgsFold(plan, vgs) == Failure(e)
    decreases |vgs| - i
  {
    if i + 1 < |vgs| {
      assert vgs[..i + 2][..i + 1] == vgs[..i + 1];
      VgsFoldStops(plan, vgs, i + 1, e);
    } else {
      assert vgs[..i + 1] == vgs;
    }
  }

  /** One declared volume of the disk being planned; returns the journal
      partitions still to place. */
  method PlanVolume(scheme: PartitionScheme, vol: Volume, osds: nat, journals: nat, journalsLeft: nat)
    returns (r: Result<nat, Error>)
    requires scheme.parteds != []
    modifies scheme
    ensures r.Ok? ==>
              VolumeStep(Builder(old(scheme.Value()), journalsLeft), vol, JournalRatio(osds, journals))
              == Ok(Builder(scheme.Value(), r.value))
    ensures r.Failure? ==>
              VolumeStep(Builder(old(scheme.Value()), journalsLeft), vol, JournalRatio(osds, journals)) == Failure(r.error)
  {
    if vol.size <= 0 {
      return Ok(journalsLeft);
    }
    if vol.name == Some(CephJournalName) {
      if journals == 0 {
        // dividing the OSD count by no journal devices
        return Failure(ZeroDivision);
      }
      var ratio := Ratio(osds, journals);
      if ratio == 0 {
        // no OSD volume: dividing the journal volume by a ratio of 0
        return Failure(ZeroDivision);
      }
      var size := JournalSize(vol.size, ratio);
      var end := JournalEnd(ratio, journalsLeft);
      var left := journalsLeft;
      ghost var start := scheme.Value();
      for i := 0 to end
        invariant left == journalsLeft - i
        invariant scheme.Value() == JournalLoop(start, i, size, vol.partitionGuid, vol.vtype == PartitionVolume)
      {
        left := left - 1;
        if vol.vtype == PartitionVolume {
          var prt := scheme.AddPartition(size, [], vol.partitionGuid, false);
        }
      }
      return Ok(left);
    }
    var prt := scheme.Value().LastPartitionName();
    if CarvesPartition(vol.vtype) {
      prt := scheme.AddPartition(vol.size as real, [],
                                 if vol.vtype == PartitionVolume then vol.partitionGuid else None, false);
    }
    match vol.vtype {
      case PartitionVolume =>
        if IsMounted(vol) {
          scheme.AddFs(prt, vol.mount.value, FsType(vol), GetLabel(vol.diskLabel));
        }
      case PvVolume =>
        if vol.vg.None? {
          return Failure(MissingKey("vg"));
        }
        scheme.VgAttachByName(prt, vol.vg.value);
      case RaidVolume =>
        if IsMounted(vol) {
          scheme.MdAttachByMount(prt, vol.mount.value, FsType(vol), GetLabel(vol.diskLabel));
        }
      case _ =>
    }
    return Ok(journalsLeft);
  }

  /** One declared disk: resolve its device, add its parted with the boot
      partitions, its volumes and, while there is none, the config-drive
      partition. Returns the journal partitions still to place. */
  method PlanDisk(scheme: PartitionScheme, disk: KsDisk, hus: seq<BlockDevice>, osds: nat, journals: nat,
                  journalsLeft: nat)
    returns (r: Result<nat, Error>)
    modifies scheme
    ensures r.Ok? ==>
              DiskStep(Builder(old(scheme.Value()), journalsLeft), disk, hus, JournalRatio(osds, journals))
              == Ok(Builder(scheme.Value(), r.value))
    ensures r.Failure? ==>
              DiskStep(Builder(old(scheme.Value()), journalsLeft), disk, hus, JournalRatio(osds, journals)) == Failure(r.error)
  {
    var dev := DiskDev(disk, hus);
    if dev.Failure? {
      return Failure(dev.error);
    }
    ghost var before := scheme.Value();
    scheme.AddParted(dev.value, GptLabel);
    scheme.SetInstallBootloader();
    var boot := scheme.AddPartition(BootSize, [BiosGrubFlag], None, false);
    var uefi := scheme.AddPartition(UefiSize, [], None, false);
    ghost var start := Builder(scheme.Value(), journalsLeft);
    assert start.plan == before.AddParted(dev.value, GptLabel).SetInstallBootloader()
                         .AddPartition(BootSize, [BiosGrubFlag], None, false)
                         .AddPartition(UefiSize, [], None, false);
    var left := journalsLeft;
    var vols := disk.volumes;
    for j := 0 to |vols|
      invariant scheme.parteds != []
      invariant VolumesFold(start, vols[..j], JournalRatio(osds, journals)) == Ok(Builder(scheme.Value(), left))
    {
      assert vols[..j + 1][..j] == vols[..j];
      var res := PlanVolume(scheme, vols[j], osds, journals, left);
      if res.Failure? {
        VolumesFoldStops(start, vols, j, JournalRatio(osds, journals), res.error);
        return Failure(res.error);
      }
      left := res.value;
    }
    assert vols[..|vols|] == vols;
    if scheme.ConfigdriveDevice().None? {
      var configdrive := scheme.AddPartition(ConfigdriveSize, [], None, true);
    }
    return Ok(left);
  }

  /** The logical volumes of one volume group. */
  method PlanVg(scheme: PartitionScheme, vg: KsVg) returns (r: Outcome<Error>)
    modifies scheme
    ensures r.Pass? ==> LvsFold(old(scheme.Value()), vg.id, vg.volumes) == Ok(scheme.Value())
    ensures r.Fail? ==> LvsFold(old(scheme.Value()), vg.id, vg.volumes) == Failure(r.error)
  {
    ghost var start := scheme.Value();
    var vols := vg.volumes;
    for j := 0 to |vols|
      invariant LvsFold(start, vg.id, vols[..j]) == Ok(scheme.Value())
    {
      assert vols[..j + 1][..j] == vols[..j];
      var volume := vols[j];
      if volume.size > 0 && volume.vtype.LvVolume? {
        if volume.name.None? {
          LvsFoldStops(start, vg.id, vols, j, MissingKey("name"));
          return Fail(MissingKey("name"));
        }
        var lvDevice := scheme.AddLv(volume.name.value, vg.id, volume.size);
        if IsMounted(volume) {
          scheme.AddFs(lvDevice, volume.mount.value, FsType(volume), GetLabel(volume.diskLabel));
        }
      }
    }
    assert vols[..|vols|] == vols;
    return Pass;
  }

  /** The specification, read in the two phases the driver runs: disks, then volume groups. */
  lemma PartitionSchemeSpecPhases(spaces: seq<Space>, hus: seq<BlockDevice>)
    ensures var disks := KsDisks(spaces);
            var osds := PartitionCount(disks, CephOsdName);
            var journals := PartitionCount(disks, CephJournalName);
            var d := DisksFold(Builder(EmptyPlan(), osds), disks, hus, JournalRatio(osds, journals));
            PartitionSchemeSpec(spaces, hus) == if d.Failure? then Failure(d.error) else VgsFold(d.value.plan, KsVgs(spaces))
  {
  }

  /** The disk loop: every filtered disk in layout order; returns the
      journal partitions still to place. */
  method PlanDisks(scheme: PartitionScheme, disks: seq<KsDisk>, hus: seq<BlockDevice>, osds: nat, journals: nat)
    returns (r: Result<nat, Error>)
    modifies scheme
    ensures r.Ok? ==>
              DisksFold(Builder(old(scheme.Value()), osds), disks, hus, JournalRatio(osds, journals))
              == Ok(Builder(scheme.Value(), r.value))
    ensures r.Failure? ==>
              DisksFold(Builder(old(scheme.Value()), osds), disks, hus, JournalRatio(osds, journals)) == Failure(r.error)
  {
    ghost var init := Builder(scheme.Value(), osds);
    var journalsLeft := osds;
    for i := 0 to |disks|
      invariant DisksFold(init, disks[..i], hus, JournalRatio(osds, journals)) == Ok(Builder(scheme.Value(), journalsLeft))
    {
      assert disks[..i + 1][..i] == disks[..i];
      var res := PlanDisk(scheme, disks[i], hus, osds, journals, journalsLeft);
      if res.Failure? {
        DisksFoldStops(init, disks, i, hus, JournalRatio(osds, journals), res.error);
        return Failure(res.error);
      }
      journalsLeft := res.value;
    }
    assert disks[..|disks|] == disks;
    return Ok(journalsLeft);
  }

  /** The volume-group loop: the logical volumes of every volume group, in layout order. */
  method PlanVgs(scheme: PartitionScheme, vgs: seq<KsVg>) returns (r: Outcome<Error>)
    modifies scheme
    ensures r.Pass? ==> VgsFold(old(scheme.Value()), vgs) == Ok(scheme.Value())
    ensures r.Fail? ==> VgsFold(old(scheme.Value()), vgs) == Failure(r.error)
  {
    ghost var planned := scheme.Value();
    for i := 0 to |vgs|
      invariant VgsFold(planned, vgs[..i]) == Ok(scheme.Value())
    {
      assert vgs[..i + 1][..i] == vgs[..i];
      var res := PlanVg(scheme, vgs[i]);
      if res.Fail? {
        VgsFoldStops(planned, vgs, i, res.error);
        return res;
      }
    }
    assert vgs[..|vgs|] == vgs;
    return Pass;
  }

  /** The partition scheme of a node: parteds, partitions, volume-group and
      RAID attachments, logical volumes and file systems. */
  method PartitionSchemeOf(spaces: seq<Space>, hus: seq<BlockDevice>) returns (r: Result<Plan, Error>)
    ensures r == PartitionSchemeSpec(spaces, hus)
  {
    var scheme := new PartitionScheme();
    var disks := KsDisks(spaces);
    var cephOsds := GetPartitionCount(disks, CephOsdName);
    var cephJournals := GetPartitionCount(disks, CephJournalName);
    var planned := PlanDisks(scheme, disks, hus, cephOsds, cephJournals);
    if planned.Failure? {
      return Failure(planned.error);
    }
    var attached := PlanVgs(scheme, KsVgs(spaces));
    if attached.Fail? {
      return Failure(attached.error);
    }
    return Ok(scheme.Value());
  }

  /** The image scheme: one image for each file system whose mount point the
      image catalogue names, in file-system order. */
  method ImageSchemeOf(plan: Plan, catalog: map<string, ImageData>) returns (images: seq<Image>)
    ensures images == ImagesFor(plan.fss, catalog)
  {
    var scheme := new ImageScheme();
    var fss := plan.fss;
    for i := 0 to |fss|
      invariant scheme.images == ImagesFor(fss[..i], catalog)
    {
      assert fss[..i + 1][..i] == fss[..i];
      var fs := fss[i];
      if fs.mount !in catalog {
        continue;
      }
      var data := catalog[fs.mount];
      scheme.AddImage(data.uri, fs.device, data.format, data.container);
    }
    assert fss[..|fss|] == fss;
    return scheme.images;
  }
}
