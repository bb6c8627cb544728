/** What the partition scheme of a node promises as a whole: one parted per
    declared disk, in order and shaped alike, a single config-drive
    partition, every file system and attachment naming a device of the
    scheme, logical volumes only in declared groups, and a journal
    partition for every OSD volume. */
module SchemeProperties {
  import opened Wrappers
  import opened Scheme
  import opened NailgunLayout
  import opened Nailgun
  import opened PlanProperties
  import opened LvProperties

  /** The disk phase from an empty scheme: the effect of the disks, and one
      config-drive partition. */
  lemma DiskPhase(disks: seq<KsDisk>, hus: seq<BlockDevice>)
    ensures var osds := PartitionCount(disks, CephOsdName);
            var journals := PartitionCount(disks, CephJournalName);
            var d := DisksFold(Builder(EmptyPlan(), osds), disks, hus, JournalRatio(osds, journals));
            d.Ok? ==> && DisksEffect(EmptyPlan(), d.value.plan, disks, hus)
                      && OneConfigdrive(EmptyPlan(), d.value.plan, disks)
  {
    var osds := PartitionCount(disks, CephOsdName);
    var journals := PartitionCount(disks, CephJournalName);
    var b := Builder(EmptyPlan(), osds);
    var ratio := JournalRatio(osds, journals);
    if DisksFold(b, disks, hus, ratio).Ok? {
      DisksFoldShape(b, disks, hus, ratio);
      DisksFoldConfigdrive(b, disks, hus, ratio);
    }
  }

  /** The volume-group phase keeps the parteds and soundness of the disk phase. */
  lemma VgPhase(plan: Plan, vgs: seq<KsVg>)
    ensures VgsFold(plan, vgs).Ok? ==> LvsEffect(plan, VgsFold(plan, vgs).value, VgIds(vgs))
  {
    if VgsFold(plan, vgs).Ok? {
      VgsFoldEffect(plan, vgs);
    }
  }

  /** Every partition has a positive size, every logical volume too, and
      every file system, volume-group attachment and RAID attachment names a
      partition or logical volume of the scheme. */
  lemma PartitionSchemeSound(spaces: seq<Space>, hus: seq<BlockDevice>)
    ensures PartitionSchemeSpec(spaces, hus).Ok? ==> Sound(PartitionSchemeSpec(spaces, hus).value)
  {
    var disks := KsDisks(spaces);
    var osds := PartitionCount(disks, CephOsdName);
    var journals := PartitionCount(disks, CephJournalName);
    var b := Builder(EmptyPlan(), osds);
    var ratio := JournalRatio(osds, journals);
    PartitionSchemeSpecPhases(spaces, hus);
    if DisksFold(b, disks, hus, ratio).Ok? {
      var p := DisksFold(b, disks, hus, ratio).value.plan;
      DisksFoldShape(b, disks, hus, ratio);
      assert Sound(EmptyPlan());
      assert Sound(p);
      if VgsFold(p, KsVgs(spaces)).Ok? {
        VgsFoldEffect(p, KsVgs(spaces));
      }
    }
  }

  /** Parted `k` is the one of the `k`-th disk of positive size in the
      layout: the device the disk resolves to, a GPT label, the bootloader,
      and the legacy boot and UEFI partitions first. */
  lemma PartitionSchemeParteds(spaces: seq<Space>, hus: seq<BlockDevice>)
    ensures var r := PartitionSchemeSpec(spaces, hus);
            var disks := KsDisks(spaces);
            r.Ok? ==> && |r.value.parteds| == |disks|
                      && forall k :: 0 <= k < |disks| ==>
                           DiskDev(disks[k], hus).Ok? && Shaped(r.value.parteds[k], DiskDev(disks[k], hus).value)
  {
    var disks := KsDisks(spaces);
    var osds := PartitionCount(disks, CephOsdName);
    var journals := PartitionCount(disks, CephJournalName);
    var d := DisksFold(Builder(EmptyPlan(), osds), disks, hus, JournalRatio(osds, journals));
    PartitionSchemeSpecPhases(spaces, hus);
    if d.Ok? && VgsFold(d.value.plan, KsVgs(spaces)).Ok? {
      var p := d.value.plan;
      var q := VgsFold(p, KsVgs(spaces)).value;
      DiskPhase(disks, hus);
      assert PartitionSchemeSpec(spaces, hus) == Ok(q);
      assert q.parteds == p.parteds;
      assert |EmptyPlan().parteds| == 0;
      forall k | 0 <= k < |disks|
        ensures DiskDev(disks[k], hus).Ok? && Shaped(q.parteds[k], DiskDev(disks[k], hus).value)
      {
        assert q.parteds[k] == p.parteds[|EmptyPlan().parteds| + k];
      }
    }
  }

  /** A layout with disks gets exactly one config-drive partition, the last
      partition of the first disk's parted; a layout without none. */
  lemma PartitionSchemeConfigdrive(spaces: seq<Space>, hus: seq<BlockDevice>)
    ensures var r := PartitionSchemeSpec(spaces, hus);
            var disks := KsDisks(spaces);
            r.Ok? ==> && |r.value.parteds| == |disks|
                      && OneConfigdrive(EmptyPlan(), r.value, disks)
  {
    var disks := KsDisks(spaces);
    var osds := PartitionCount(disks, CephOsdName);
    var journals := PartitionCount(disks, CephJournalName);
    var d := DisksFold(Builder(EmptyPlan(), osds), disks, hus, JournalRatio(osds, journals));
    PartitionSchemeSpecPhases(spaces, hus);
    DiskPhase(disks, hus);
    if d.Ok? {
      VgPhase(d.value.plan, KsVgs(spaces));
    }
  }

  /** Every logical volume belongs to a volume group the layout declares. */
  lemma PartitionSchemeLvs(spaces: seq<Space>, hus: seq<BlockDevice>)
    ensures var r := PartitionSchemeSpec(spaces, hus);
            r.Ok? ==> forall j :: 0 <= j < |r.value.lvs| ==> r.value.lvs[j].vg in VgIds(KsVgs(spaces))
  {
    var disks := KsDisks(spaces);
    var osds := PartitionCount(disks, CephOsdName);
    var journals := PartitionCount(disks, CephJournalName);
    var d := DisksFold(Builder(EmptyPlan(), osds), disks, hus, JournalRatio(osds, journals));
    PartitionSchemeSpecPhases(spaces, hus);
    DiskPhase(disks, hus);
    if d.Ok? {
      VgPhase(d.value.plan, KsVgs(spaces));
    }
  }

  /** Once the disks are planned, the scheme fails exactly when a volume
      group declares a logical volume without a name, and then for the
      missing key `name`. */
  lemma PartitionSchemeNamelessLv(spaces: seq<Space>, hus: seq<BlockDevice>)
    ensures var disks := KsDisks(spaces);
            var vgs := KsVgs(spaces);
            var osds := PartitionCount(disks, CephOsdName);
            var journals := PartitionCount(disks, CephJournalName);
            var r := PartitionSchemeSpec(spaces, hus);
            DisksFold(Builder(EmptyPlan(), osds), disks, hus, JournalRatio(osds, journals)).Ok? ==>
              && (r.Failure? <==>
                    exists i, k :: 0 <= i < |vgs| && 0 <= k < |vgs[i].volumes| && Nameless(vgs[i].volumes[k]))
              && (r.Failure? ==> r.error == MissingKey("name"))
  {
    var disks := KsDisks(spaces);
    var osds := PartitionCount(disks, CephOsdName);
    var journals := PartitionCount(disks, CephJournalName);
    var d := DisksFold(Builder(EmptyPlan(), osds), disks, hus, JournalRatio(osds, journals));
    PartitionSchemeSpecPhases(spaces, hus);
    if d.Ok? {
      VgsFoldFails(d.value.plan, KsVgs(spaces));
    }
  }

  /** Every OSD volume gets a journal partition: with journal volumes, the
      disk loop ends with none left to place, and there is an OSD volume;
      without, the count of OSD volumes is left untouched. */
  lemma JournalsAllPlaced(disks: seq<KsDisk>, hus: seq<BlockDevice>, plan: Plan)
    ensures var osds := PartitionCount(disks, CephOsdName);
            var journals := PartitionCount(disks, CephJournalName);
            var d := DisksFold(Builder(plan, osds), disks, hus, JournalRatio(osds, journals));
            d.Ok? ==> && (journals > 0 ==> osds > 0 && d.value.journalsLeft == 0)
                      && (journals == 0 ==> d.value.journalsLeft == osds)
  {
    var osds := PartitionCount(disks, CephOsdName);
    var journals := PartitionCount(disks, CephJournalName);
    var ratio := JournalRatio(osds, journals);
    if DisksFold(Builder(plan, osds), disks, hus, ratio).Ok? {
      DisksFoldJournals(Builder(plan, osds), disks, hus, ratio);
      OwedClosedForm(osds, journals, ratio);
      if journals > 0 {
        RatioBounds(osds, journals);
      }
    }
  }

  /** Journal volumes without any OSD volume make the ratio 0, and the
      scheme fails. */
  lemma JournalsWithoutOsdsFail(spaces: seq<Space>, hus: seq<BlockDevice>)
    requires PartitionCount(KsDisks(spaces), CephJournalName) > 0
    requires PartitionCount(KsDisks(spaces), CephOsdName) == 0
    ensures PartitionSchemeSpec(spaces, hus).Failure?
  {
    JournalsAllPlaced(KsDisks(spaces), hus, EmptyPlan());
    PartitionSchemeSpecPhases(spaces, hus);
  }
}
