/** What each declared volume adds to the scheme, by its kind, and that
    volumes without a positive size add nothing. */
module VolumeProperties {
  import opened Wrappers
  import opened Scheme
  import opened NailgunLayout
  import opened PlanProperties

  /** The volumes of positive size, in declaration order. */
  function Positive(vols: seq<Volume>): (r: seq<Volume>)
    decreases |vols|
  {
    if vols == [] then []
    else Positive(vols[..|vols| - 1]) + (if vols[|vols| - 1].size > 0 then [vols[|vols| - 1]] else [])
  }

  lemma {:induction false} PositiveMembers(vols: seq<Volume>)
    ensures forall v :: v in Positive(vols) <==> v in vols && v.size > 0
    decreases |vols|
  {
    if vols != [] {
      var last := vols[|vols| - 1];
      PositiveMembers(vols[..|vols| - 1]);
      assert forall v :: v in vols <==> v == last || v in vols[..|vols| - 1] by {
        assert vols == vols[..|vols| - 1] + [last];
      }
    }
  }

  /** The filter keeps declaration order. */
  lemma {:induction false} PositiveAppend(a: seq<Volume>, c: seq<Volume>)
    ensures Positive(a + c) == Positive(a) + Positive(c)
    decreases |c|
  {
    if c == [] {
      assert a + c == a;
    } else {
      var init := c[..|c| - 1];
      assert (a + c)[..|a + c| - 1] == a + init && (a + c)[|a + c| - 1] == c[|c| - 1];
      PositiveAppend(a, init);
    }
  }

  lemma PositiveSingle(v: Volume)
    ensures Positive([v]) == if v.size > 0 then [v] else []
  {
    assert [v][..0] == [];
  }

  /** A disk's volumes plan exactly as its volumes of positive size do. */
  lemma {:induction false} VolumesFoldSkipsEmpty(b: Builder, vols: seq<Volume>, ratio: nat)
    requires b.plan.parteds != []
    ensures VolumesFold(b, vols, ratio) == VolumesFold(b, Positive(vols), ratio)
    decreases |vols|
  {
    if vols != [] {
      var init, last := vols[..|vols| - 1], vols[|vols| - 1];
      VolumesFoldSkipsEmpty(b, init, ratio);
      if last.size > 0 {
        var p := Positive(init) + [last];
        assert Positive(vols) == p;
        assert p[..|p| - 1] == Positive(init) && p[|p| - 1] == last;
      } else {
        assert Positive(vols) == Positive(init) + [] == Positive(init);
      }
    }
  }

  /** A volume group's volumes plan exactly as its volumes of positive size do. */
  lemma {:induction false} LvsFoldSkipsEmpty(plan: Plan, vgId: string, vols: seq<Volume>)
    ensures LvsFold(plan, vgId, vols) == LvsFold(plan, vgId, Positive(vols))
    decreases |vols|
  {
    if vols != [] {
      var init, last := vols[..|vols| - 1], vols[|vols| - 1];
      LvsFoldSkipsEmpty(plan, vgId, init);
      if last.size > 0 {
        var p := Positive(init) + [last];
        assert Positive(vols) == p;
        assert p[..|p| - 1] == Positive(init) && p[|p| - 1] == last;
      } else {
        assert Positive(vols) == Positive(init) + [] == Positive(init);
      }
    }
  }

  /** A journal volume: with no OSD volume (ratio 0) the division fails;
      otherwise it places at most `ratio` of the journal partitions still
      owed, all of them unless fewer than `ratio` are owed, and the
      parted gets that many equal partitions, each the volume's share
      capped at 10240, only when the volume is of type `partition`. */
  lemma JournalVolumeStep(b: Builder, vol: Volume, ratio: nat)
    requires b.plan.parteds != []
    requires vol.size > 0 && vol.name == Some(CephJournalName)
    ensures ratio == 0 ==> VolumeStep(b, vol, ratio) == Failure(ZeroDivision)
    ensures ratio > 0 ==>
              && VolumeStep(b, vol, ratio).Ok?
              && var q := VolumeStep(b, vol, ratio).value;
                 var placed := b.journalsLeft - q.journalsLeft;
                 && 0 <= placed <= ratio
                 && (placed == ratio || q.journalsLeft == 0)
                 && q.plan.parteds[..|q.plan.parteds| - 1] == b.plan.parteds[..|b.plan.parteds| - 1]
                 && q.plan.LastParted()
                    == b.plan.LastParted().(partitions := b.plan.LastParted().partitions
                         + (if vol.vtype == PartitionVolume
                            then Copies(placed, Partition(JournalSize(vol.size, ratio), [], vol.partitionGuid, false))
                            else []))
                 && q.plan.fss == b.plan.fss && q.plan.lvs == b.plan.lvs
                 && q.plan.vgAttachments == b.plan.vgAttachments && q.plan.mdAttachments == b.plan.mdAttachments
  {
    if ratio > 0 {
      var end := JournalEnd(ratio, b.journalsLeft);
      JournalLoopShape(b.plan, end, JournalSize(vol.size, ratio), vol.partitionGuid, vol.vtype == PartitionVolume);
    }
  }

  /** A volume of another name, by its type: a `partition` gets a partition
      and, when mounted somewhere other than `none`, one file system on it;
      a `pv` gets a partition attached to its volume group, and fails
      without one; a `raid` gets a partition and, when mounted, a RAID
      attachment; any other type adds nothing. */
  lemma PlainVolumeStep(b: Builder, vol: Volume, ratio: nat)
    requires b.plan.parteds != []
    requires vol.size > 0 && vol.name != Some(CephJournalName)
    ensures var r := VolumeStep(b, vol, ratio);
            var last := b.plan.LastParted();
            var prt := PartitionDevice(last.name, |last.partitions| + 1);
            && (r.Ok? ==> r.value.journalsLeft == b.journalsLeft && |r.value.plan.parteds| == |b.plan.parteds|)
            && (r.Ok? ==> r.value.plan.parteds[..|b.plan.parteds| - 1] == b.plan.parteds[..|b.plan.parteds| - 1])
            && (r.Ok? ==> r.value.plan.lvs == b.plan.lvs)
            && (vol.vtype == PartitionVolume ==>
                  && r.Ok?
                  && r.value.plan.LastParted()
                     == last.(partitions := last.partitions + [Partition(vol.size as real, [], vol.partitionGuid, false)])
                  && r.value.plan.fss
                     == b.plan.fss + (if IsMounted(vol)
                                      then [Fs(prt, vol.mount.value, FsType(vol), GetLabel(vol.diskLabel))]
                                      else [])
                  && r.value.plan.vgAttachments == b.plan.vgAttachments
                  && r.value.plan.mdAttachments == b.plan.mdAttachments)
            && (vol.vtype == PvVolume ==>
                  && (r.Ok? <==> vol.vg.Some?)
                  && (r.Failure? ==> r.error == MissingKey("vg"))
                  && (r.Ok? ==>
                        && r.value.plan.LastParted()
                           == last.(partitions := last.partitions + [Partition(vol.size as real, [], None, false)])
                        && r.value.plan.vgAttachments == b.plan.vgAttachments + [VgAttachment(prt, vol.vg.value)]
                        && r.value.plan.fss == b.plan.fss
                        && r.value.plan.mdAttachments == b.plan.mdAttachments))
            && (vol.vtype == RaidVolume ==>
                  && r.Ok?
                  && r.value.plan.LastParted()
                     == last.(partitions := last.partitions + [Partition(vol.size as real, [], None, false)])
                  && r.value.plan.mdAttachments
                     == b.plan.mdAttachments + (if IsMounted(vol)
                                                then [MdAttachment(prt, vol.mount.value, FsType(vol), GetLabel(vol.diskLabel))]
                                                else [])
                  && r.value.plan.fss == b.plan.fss
                  && r.value.plan.vgAttachments == b.plan.vgAttachments)
            && (!CarvesPartition(vol.vtype) ==> r == Ok(b))
  {
    if CarvesPartition(vol.vtype) {
      var guid := if vol.vtype == PartitionVolume then vol.partitionGuid else None;
      var plan := b.plan.AddPartition(vol.size as real, [], guid, false);
      assert plan.parteds[..|b.plan.parteds| - 1] == b.plan.parteds[..|b.plan.parteds| - 1];
      assert plan.LastPartitionName() == PartitionDevice(b.plan.LastParted().name, |b.plan.LastParted().partitions| + 1);
    }
  }

  /** A volume of a volume group: an `lv` of positive size becomes a
      logical volume of that group, with one file system on it when it is
      mounted, and fails without a name; anything else adds nothing. */
  lemma LvVolumeStep(plan: Plan, vgId: string, vol: Volume)
    ensures var r := LvStep(plan, vgId, vol);
            && (vol.size > 0 && vol.vtype.LvVolume? ==>
                  && (r.Ok? <==> vol.name.Some?)
                  && (r.Failure? ==> r.error == MissingKey("name"))
                  && (r.Ok? ==>
                        && r.value.lvs == plan.lvs + [Lv(vol.name.value, vgId, vol.size)]
                        && r.value.fss
                           == plan.fss + (if IsMounted(vol)
                                          then [Fs(LvDevice(vgId, vol.name.value), vol.mount.value, FsType(vol),
                                                   GetLabel(vol.diskLabel))]
                                          else [])
                        && r.value.parteds == plan.parteds
                        && r.value.vgAttachments == plan.vgAttachments
                        && r.value.mdAttachments == plan.mdAttachments))
            && (vol.size <= 0 || !vol.vtype.LvVolume? ==> r == Ok(plan))
  {
  }
}
