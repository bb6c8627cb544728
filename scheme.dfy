/** The plan objects the driver fills in: a partition scheme (parteds with
    their partitions, file systems, volume-group attachments, RAID
    attachments, logical volumes) and an image scheme. The collaborator that
    defines them is not part of this model; each object is a record of
    sequences, and each of its operations appends to one of them. */
module Scheme {
  import opened Wrappers

  /** The name the executor will give a partition or a logical volume. The
      collaborator derives a partition's name from its disk and its 1-based
      position on that disk, and a logical volume's from its volume group and
      its own name; the model keeps those two inputs and nothing else. */
  datatype DeviceRef =
    | PartitionDevice(disk: string, count: nat)
    | LvDevice(vg: string, lv: string)

  datatype Partition = Partition(size: real, flags: seq<string>, guid: Option<string>, configdrive: bool)

  /** One disk to be labelled and partitioned. */
  datatype Parted = Parted(name: string, tableLabel: string, installBootloader: bool, partitions: seq<Partition>)

  datatype Fs = Fs(device: DeviceRef, mount: string, fsType: string, fsLabel: string)

  datatype VgAttachment = VgAttachment(pv: DeviceRef, vg: string)

  /** A RAID member together with the mount and file system of its array. */
  datatype MdAttachment = MdAttachment(device: DeviceRef, mount: string, fsType: string, fsLabel: string)

  datatype Lv = Lv(name: string, vg: string, size: int)

  function LvDeviceName(lv: Lv): DeviceRef {
    LvDevice(lv.vg, lv.name)
  }

  /** The names of the config-drive partitions among `parts` on disk `disk`, in order. */
  function Flagged(disk: string, parts: seq<Partition>): seq<DeviceRef>
    decreases |parts|
  {
    if parts == [] then []
    else
      Flagged(disk, parts[..|parts| - 1])
      + (if parts[|parts| - 1].configdrive then [PartitionDevice(disk, |parts|)] else [])
  }

  /** The names of all config-drive partitions of a scheme, disk by disk. */
  function ConfigdriveDevices(parteds: seq<Parted>): seq<DeviceRef>
    decreases |parteds|
  {
    if parteds == [] then []
    else
      var last := parteds[|parteds| - 1];
      ConfigdriveDevices(parteds[..|parteds| - 1]) + Flagged(last.name, last.partitions)
  }

  lemma {:induction false} FlaggedMembers(disk: string, parts: seq<Partition>, d: DeviceRef)
    ensures d in Flagged(disk, parts) <==>
              exists k :: 0 <= k < |parts| && parts[k].configdrive && d == PartitionDevice(disk, k + 1)
    decreases |parts|
  {
    if parts != [] {
      var init := parts[..|parts| - 1];
      FlaggedMembers(disk, init, d);
      if d in Flagged(disk, parts) && d !in Flagged(disk, init) {
        assert parts[|parts| - 1].configdrive && d == PartitionDevice(disk, |parts|);
      }
      if exists k :: 0 <= k < |parts| && parts[k].configdrive && d == PartitionDevice(disk, k + 1) {
        var k :| 0 <= k < |parts| && parts[k].configdrive && d == PartitionDevice(disk, k + 1);
        if k < |parts| - 1 {
          assert init[k] == parts[k];
        }
      }
    }
  }

  lemma {:induction false} ConfigdriveDevicesMembers(parteds: seq<Parted>, d: DeviceRef)
    ensures d in ConfigdriveDevices(parteds) <==>
              exists i, k :: 0 <= i < |parteds| && 0 <= k < |parteds[i].partitions|
                             && parteds[i].partitions[k].configdrive
                             && d == PartitionDevice(parteds[i].name, k + 1)
    decreases |parteds|
  {
    if parteds != [] {
      var init := parteds[..|parteds| - 1];
      var last := parteds[|parteds| - 1];
      ConfigdriveDevicesMembers(init, d);
      FlaggedMembers(last.name, last.partitions, d);
      if exists i, k :: 0 <= i < |parteds| && 0 <= k < |parteds[i].partitions|
                        && parteds[i].partitions[k].configdrive
                        && d == PartitionDevice(parteds[i].name, k + 1) {
        var i, k :| 0 <= i < |parteds| && 0 <= k < |parteds[i].partitions|
                    && parteds[i].partitions[k].configdrive
                    && d == PartitionDevice(parteds[i].name, k + 1);
        if i < |parteds| - 1 {
          assert init[i] == parteds[i];
        }
      }
    }
  }

  lemma FlaggedAppend(disk: string, parts: seq<Partition>, p: Partition)
    ensures Flagged(disk, parts + [p])
            == Flagged(disk, parts) + (if p.configdrive then [PartitionDevice(disk, |parts| + 1)] else [])
  {
    assert (parts + [p])[..|parts|] == parts;
  }

  lemma ConfigdriveDevicesSnoc(parteds: seq<Parted>, p: Parted)
    ensures ConfigdriveDevices(parteds + [p]) == ConfigdriveDevices(parteds) + Flagged(p.name, p.partitions)
  {
    assert (parteds + [p])[..|parteds|] == parteds;
  }

  /** The partition scheme as a value: what the driver hands to the executor. */
  datatype Plan = Plan(
    parteds: seq<Parted>,
    fss: seq<Fs>,
    vgAttachments: seq<VgAttachment>,
    mdAttachments: seq<MdAttachment>,
    lvs: seq<Lv>)
  {
    function AddParted(name: string, tableLabel: string): (r: Plan)
      ensures |r.parteds| == |parteds| + 1 && r.parteds[..|parteds|] == parteds
      ensures r.LastParted() == Parted(name, tableLabel, false, [])
    {
      var r := this.(parteds := parteds + [Parted(name, tableLabel, false, [])]);
      assert r.parteds[..|parteds|] == parteds;
      r
    }

    function LastParted(): Parted
      requires parteds != []
    {
      parteds[|parteds| - 1]
    }

    /** Replaces the last parted, the only one the driver changes after adding it. */
    function WithLastParted(p: Parted): (r: Plan)
      requires parteds != []
      ensures |r.parteds| == |parteds| && r.parteds[..|parteds| - 1] == parteds[..|parteds| - 1]
      ensures r.LastParted() == p
    {
      var r := this.(parteds := parteds[..|parteds| - 1] + [p]);
      assert r.parteds[..|parteds| - 1] == parteds[..|parteds| - 1];
      r
    }

    function SetInstallBootloader(): (r: Plan)
      requires parteds != []
      ensures |r.parteds| == |parteds|
    {
      WithLastParted(LastParted().(installBootloader := true))
    }

    function AddPartition(size: real, flags: seq<string>, guid: Option<string>, configdrive: bool): (r: Plan)
      requires parteds != []
      ensures |r.parteds| == |parteds|
    {
      var last := LastParted();
      WithLastParted(last.(partitions := last.partitions + [Partition(size, flags, guid, configdrive)]))
    }

    /** The name of the partition added last. */
    function LastPartitionName(): DeviceRef
      requires parteds != []
    {
      PartitionDevice(LastParted().name, |LastParted().partitions|)
    }

    function AddFs(device: DeviceRef, mount: string, fsType: string, fsLabel: string): Plan {
      this.(fss := fss + [Fs(device, mount, fsType, fsLabel)])
    }

    function VgAttachByName(pv: DeviceRef, vg: string): Plan {
      this.(vgAttachments := vgAttachments + [VgAttachment(pv, vg)])
    }

    function MdAttachByMount(device: DeviceRef, mount: string, fsType: string, fsLabel: string): Plan {
      this.(mdAttachments := mdAttachments + [MdAttachment(device, mount, fsType, fsLabel)])
    }

    function AddLv(name: string, vg: string, size: int): Plan {
      this.(lvs := lvs + [Lv(name, vg, size)])
    }

    /** The first partition marked as the config-drive target, if any. */
    function ConfigdriveDevice(): Option<DeviceRef> {
      var ds := ConfigdriveDevices(parteds);
      if ds == [] then None else Some(ds[0])
    }
  }

  /** A new parted has no partitions yet, so no config-drive partition. */
  lemma AddPartedConfigdrive(plan: Plan, name: string, tableLabel: string)
    ensures ConfigdriveDevices(plan.AddParted(name, tableLabel).parteds) == ConfigdriveDevices(plan.parteds)
  {
    ConfigdriveDevicesSnoc(plan.parteds, Parted(name, tableLabel, false, []));
  }

  lemma WithLastPartedConfigdrive(plan: Plan, p: Parted)
    requires plan.parteds != []
    ensures var n := |plan.parteds|;
            && ConfigdriveDevices(plan.parteds)
               == ConfigdriveDevices(plan.parteds[..n - 1]) + Flagged(plan.LastParted().name, plan.LastParted().partitions)
            && ConfigdriveDevices(plan.WithLastParted(p).parteds)
               == ConfigdriveDevices(plan.parteds[..n - 1]) + Flagged(p.name, p.partitions)
  {
    var n := |plan.parteds|;
    assert plan.parteds == plan.parteds[..n - 1] + [plan.LastParted()];
    ConfigdriveDevicesSnoc(plan.parteds[..n - 1], plan.LastParted());
    ConfigdriveDevicesSnoc(plan.parteds[..n - 1], p);
  }

  lemma SetInstallBootloaderConfigdrive(plan: Plan)
    requires plan.parteds != []
    ensures ConfigdriveDevices(plan.SetInstallBootloader().parteds) == ConfigdriveDevices(plan.parteds)
  {
    WithLastPartedConfigdrive(plan, plan.LastParted().(installBootloader := true));
  }

  /** A new partition is a config-drive partition exactly when it is marked
      so, and then its name follows the ones before it. */
  lemma AddPartitionConfigdrive(plan: Plan, size: real, flags: seq<string>, guid: Option<string>, configdrive: bool)
    requires plan.parteds != []
    ensures ConfigdriveDevices(plan.AddPartition(size, flags, guid, configdrive).parteds)
            == ConfigdriveDevices(plan.parteds)
               + (if configdrive then [PartitionDevice(plan.LastParted().name, |plan.LastParted().partitions| + 1)] else [])
  {
    var last := plan.LastParted();
    var p := Partition(size, flags, guid, configdrive);
    FlaggedAppend(last.name, last.partitions, p);
    WithLastPartedConfigdrive(plan, last.(partitions := last.partitions + [p]));
  }

  /** There is no config-drive device exactly when no partition is marked,
      and the one there is names a marked partition. */
  lemma ConfigdriveDeviceMarked(plan: Plan)
    ensures plan.ConfigdriveDevice().None? <==>
              forall i, k :: 0 <= i < |plan.parteds| && 0 <= k < |plan.parteds[i].partitions|
                             ==> !plan.parteds[i].partitions[k].configdrive
    ensures plan.ConfigdriveDevice().Some? ==>
              exists i, k :: 0 <= i < |plan.parteds| && 0 <= k < |plan.parteds[i].partitions|
                             && plan.parteds[i].partitions[k].configdrive
                             && plan.ConfigdriveDevice().value == PartitionDevice(plan.parteds[i].name, k + 1)
  {
    var ds := ConfigdriveDevices(plan.parteds);
    if ds == [] {
      forall i, k | 0 <= i < |plan.parteds| && 0 <= k < |plan.parteds[i].partitions|
        ensures !plan.parteds[i].partitions[k].configdrive
      {
        ConfigdriveDevicesMembers(plan.parteds, PartitionDevice(plan.parteds[i].name, k + 1));
      }
    } else {
      ConfigdriveDevicesMembers(plan.parteds, ds[0]);
      var i, k :| 0 <= i < |plan.parteds| && 0 <= k < |plan.parteds[i].partitions|
                  && plan.parteds[i].partitions[k].configdrive;
      ConfigdriveDevicesMembers(plan.parteds, PartitionDevice(plan.parteds[i].name, k + 1));
    }
  }

  function EmptyPlan(): Plan {
    Plan([], [], [], [], [])
  }

  /** The partition scheme object the driver fills in step by step. */
  class PartitionScheme {
    var parteds: seq<Parted>
    var fss: seq<Fs>
    var vgAttachments: seq<VgAttachment>
    var mdAttachments: seq<MdAttachment>
    var lvs: seq<Lv>

    function Value(): Plan
      reads this
    {
      Plan(parteds, fss, vgAttachments, mdAttachments, lvs)
    }

    constructor ()
      ensures Value() == EmptyPlan()
    {
      parteds, fss, vgAttachments, mdAttachments, lvs := [], [], [], [], [];
    }

    method AddParted(name: string, tableLabel: string)
      modifies this
      ensures Value() == old(Value()).AddParted(name, tableLabel)
    {
      parteds := parteds + [Parted(name, tableLabel, false, [])];
    }

    /** Sets the bootloader flag of the parted added last. */
    method SetInstallBootloader()
      requires parteds != []
      modifies this
      ensures Value() == old(Value()).SetInstallBootloader()
    {
      var last := parteds[|parteds| - 1];
      parteds := parteds[..|parteds| - 1] + [last.(installBootloader := true)];
    }

    /** Appends a partition to the parted added last and returns its name. */
    method AddPartition(size: real, flags: seq<string>, guid: Option<string>, configdrive: bool)
      returns (name: DeviceRef)
      requires parteds != []
      modifies this
      ensures Value() == old(Value()).AddPartition(size, flags, guid, configdrive)
      ensures name == Value().LastPartitionName()
    {
      var last := parteds[|parteds| - 1];
      var partitions := last.partitions + [Partition(size, flags, guid, configdrive)];
      parteds := parteds[..|parteds| - 1] + [last.(partitions := partitions)];
      name := PartitionDevice(last.name, |partitions|);
    }

    method AddFs(device: DeviceRef, mount: string, fsType: string, fsLabel: string)
      modifies this
      ensures Value() == old(Value()).AddFs(device, mount, fsType, fsLabel)
    {
      fss := fss + [Fs(device, mount, fsType, fsLabel)];
    }

    method VgAttachByName(pv: DeviceRef, vg: string)
      modifies this
      ensures Value() == old(Value()).VgAttachByName(pv, vg)
    {
      vgAttachments := vgAttachments + [VgAttachment(pv, vg)];
    }

    method MdAttachByMount(device: DeviceRef, mount: string, fsType: string, fsLabel: string)
      modifies this
      ensures Value() == old(Value()).MdAttachByMount(device, mount, fsType, fsLabel)
    {
      mdAttachments := mdAttachments + [MdAttachment(device, mount, fsType, fsLabel)];
    }

    /** Adds a logical volume and returns its device name. */
    method AddLv(name: string, vg: string, size: int) returns (deviceName: DeviceRef)
      modifies this
      ensures Value() == old(Value()).AddLv(name, vg, size)
      ensures deviceName == LvDeviceName(Lv(name, vg, size))
    {
      lvs := lvs + [Lv(name, vg, size)];
      deviceName := LvDevice(vg, name);
    }

    function ConfigdriveDevice(): Option<DeviceRef>
      reads this
    {
      Value().ConfigdriveDevice()
    }
  }

  datatype Image = Image(uri: string, targetDevice: DeviceRef, imageFormat: string, container: string)

  /** The image scheme object: the images to lay down, in order. */
  class ImageScheme {
    var images: seq<Image>

    constructor ()
      ensures images == []
    {
      images := [];
    }

    method AddImage(uri: string, targetDevice: DeviceRef, imageFormat: string, container: string)
      modifies this
      ensures images == old(images) + [Image(uri, targetDevice, imageFormat, container)]
    {
      images := images + [Image(uri, targetDevice, imageFormat, container)];
    }
  }
}
