/** The volume-group phase of the partition scheme: what the logical volumes
    of the declared volume groups add, and when the phase fails. */
module LvProperties {
  import opened Wrappers
  import opened Scheme
  import opened NailgunLayout
  import opened PlanProperties
  import opened Seqs

  /** The ids of the volume groups `vgs`. */
  ghost function VgIds(vgs: seq<KsVg>): set<string>
    decreases |vgs|
  {
    if vgs == [] then {} else VgIds(vgs[..|vgs| - 1]) + {vgs[|vgs| - 1].id}
  }

  lemma {:induction false} VgIdsMembers(vgs: seq<KsVg>, id: string)
    ensures id in VgIds(vgs) <==> exists i :: 0 <= i < |vgs| && vgs[i].id == id
    decreases |vgs|
  {
    if vgs != [] {
      var init := vgs[..|vgs| - 1];
      VgIdsMembers(init, id);
      if exists i :: 0 <= i < |vgs| && vgs[i].id == id {
        var i :| 0 <= i < |vgs| && vgs[i].id == id;
        if i < |vgs| - 1 {
          assert init[i] == vgs[i];
        }
      }
    }
  }

  /** What logical volumes of the groups `ids` do to `p`, leaving `q`: the
      parteds and attachments stay as they were, logical volumes and file
      systems are only appended, every new logical volume belongs to one of
      the groups, and soundness is kept. */
  ghost predicate LvsEffect(p: Plan, q: Plan, ids: set<string>) {
    && q.parteds == p.parteds
    && q.vgAttachments == p.vgAttachments
    && q.mdAttachments == p.mdAttachments
    && Extends(p, q)
    && (forall j :: |p.lvs| <= j < |q.lvs| ==> q.lvs[j].vg in ids)
    && (Sound(p) ==> Sound(q))
  }

  lemma LvsEffectReflexive(p: Plan, ids: set<string>)
    ensures LvsEffect(p, p, ids)
  {
    ExtendsReflexive(p);
  }

  lemma LvsEffectTransitive(p: Plan, m: Plan, q: Plan, a: set<string>, b: set<string>)
    requires LvsEffect(p, m, a) && LvsEffect(m, q, b)
    ensures LvsEffect(p, q, a + b)
  {
    ExtendsTransitive(p, m, q);
    forall j | |p.lvs| <= j < |q.lvs|
      ensures q.lvs[j].vg in a + b
    {
      if j < |m.lvs| {
        assert q.lvs[j] == m.lvs[j];
      }
    }
  }

  /** One volume of group `vgId`: at most one new logical volume, of that
      group and of positive size, and its file system names it. */
  lemma LvStepEffect(plan: Plan, vgId: string, vol: Volume)
    requires LvStep(plan, vgId, vol).Ok?
    ensures LvsEffect(plan, LvStep(plan, vgId, vol).value, {vgId})
  {
    var r := LvStep(plan, vgId, vol).value;
    if vol.size > 0 && vol.vtype.LvVolume? {
      var lv := Lv(vol.name.value, vgId, vol.size);
      var p := plan.AddLv(lv.name, lv.vg, lv.size);
      assert Extends(plan, p);
      assert p.lvs[|plan.lvs|] == lv;
      assert Names(p, LvDeviceName(lv));
      if Sound(plan) {
        ReferencesSurvive(plan, p);
      }
      if IsMounted(vol) {
        AddFsSound(p, LvDeviceName(lv), vol.mount.value, FsType(vol), GetLabel(vol.diskLabel));
        ExtendsTransitive(plan, p, r);
      }
    } else {
      LvsEffectReflexive(plan, {vgId});
    }
  }

  /** The volumes of group `vgId`, in order. */
  lemma {:induction false} LvsFoldEffect(plan: Plan, vgId: string, vols: seq<Volume>)
    requires LvsFold(plan, vgId, vols).Ok?
    ensures LvsEffect(plan, LvsFold(plan, vgId, vols).value, {vgId})
    decreases |vols|
  {
    if vols == [] {
      LvsEffectReflexive(plan, {vgId});
    } else {
      var m := LvsFold(plan, vgId, vols[..|vols| - 1]).value;
      LvsFoldEffect(plan, vgId, vols[..|vols| - 1]);
      LvStepEffect(m, vgId, vols[|vols| - 1]);
      LvsEffectTransitive(plan, m, LvsFold(plan, vgId, vols).value, {vgId}, {vgId});
    }
  }

  /** All the volume groups, in layout order. */
  lemma {:induction false} VgsFoldEffect(plan: Plan, vgs: seq<KsVg>)
    requires VgsFold(plan, vgs).Ok?
    ensures LvsEffect(plan, VgsFold(plan, vgs).value, VgIds(vgs))
    decreases |vgs|
  {
    if vgs == [] {
      LvsEffectReflexive(plan, {});
    } else {
      var init, last := vgs[..|vgs| - 1], vgs[|vgs| - 1];
      var m := VgsFold(plan, init).value;
      VgsFoldEffect(plan, init);
      LvsFoldEffect(m, last.id, last.volumes);
      LvsEffectTransitive(plan, m, VgsFold(plan, vgs).value, VgIds(init), {last.id});
    }
  }

  /** A volume that would become a logical volume but has no name. */
  predicate Nameless(vol: Volume) {
    vol.size > 0 && vol.vtype.LvVolume? && vol.name.None?
  }

  /** A group's volumes fail exactly when one of them is a nameless logical
      volume, and then with the missing key `name`. */
  lemma {:induction false} LvsFoldFails(plan: Plan, vgId: string, vols: seq<Volume>)
    ensures LvsFold(plan, vgId, vols).Failure? <==> exists i :: 0 <= i < |vols| && Nameless(vols[i])
    ensures LvsFold(plan, vgId, vols).Failure? ==> LvsFold(plan, vgId, vols).error == MissingKey("name")
    decreases |vols|
  {
    if vols != [] {
      var init := vols[..|vols| - 1];
      LvsFoldFails(plan, vgId, init);
      if exists i :: 0 <= i < |vols| && Nameless(vols[i]) {
        var i :| 0 <= i < |vols| && Nameless(vols[i]);
        if i < |vols| - 1 {
          assert Nameless(init[i]);
        }
      }
      if exists i :: 0 <= i < |init| && Nameless(init[i]) {
        var i :| 0 <= i < |init| && Nameless(init[i]);
        assert Nameless(vols[i]);
      }
    }
  }

  /** The volume groups fail exactly when one of them declares a nameless
      logical volume. */
  lemma {:induction false} VgsFoldFails(plan: Plan, vgs: seq<KsVg>)
    ensures VgsFold(plan, vgs).Failure? <==>
              exists i, k :: 0 <= i < |vgs| && 0 <= k < |vgs[i].volumes| && Nameless(vgs[i].volumes[k])
    ensures VgsFold(plan, vgs).Failure? ==> VgsFold(plan, vgs).error == MissingKey("name")
    decreases |vgs|
  {
    if vgs != [] {
      var init, last := vgs[..|vgs| - 1], vgs[|vgs| - 1];
      VgsFoldFails(plan, init);
      if VgsFold(plan, init).Ok? {
        LvsFoldFails(VgsFold(plan, init).value, last.id, last.volumes);
      }
      if exists i, k :: 0 <= i < |vgs| && 0 <= k < |vgs[i].volumes| && Nameless(vgs[i].volumes[k]) {
        var i, k :| 0 <= i < |vgs| && 0 <= k < |vgs[i].volumes| && Nameless(vgs[i].volumes[k]);
        if i < |vgs| - 1 {
          assert Nameless(init[i].volumes[k]);
        }
      }
      if exists i, k :: 0 <= i < |init| && 0 <= k < |init[i].volumes| && Nameless(init[i].volumes[k]) {
        var i, k :| 0 <= i < |init| && 0 <= k < |init[i].volumes| && Nameless(init[i].volumes[k]);
        assert vgs[i] == init[i];
      }
    }
  }
}
