/** What the driver promises about finding the device of a declared disk. */
module DeviceProperties {
  import opened Wrappers
  import opened NailgunLayout

  /** Device `i` is the only one `sel` selects. */
  ghost predicate OnlyIndex(hus: seq<BlockDevice>, sel: Selector, i: int) {
    && 0 <= i < |hus|
    && Selects(sel, hus[i])
    && forall j :: 0 <= j < |hus| && Selects(sel, hus[j]) ==> j == i
  }

  ghost predicate NoneSelected(hus: seq<BlockDevice>, sel: Selector) {
    forall j :: 0 <= j < |hus| ==> !Selects(sel, hus[j])
  }

  lemma {:induction false} DevicesWhereSingle(hus: seq<BlockDevice>, sel: Selector)
    ensures |DevicesWhere(hus, sel)| == 1 <==> exists i :: OnlyIndex(hus, sel, i)
    ensures forall i :: OnlyIndex(hus, sel, i) ==> DevicesWhere(hus, sel) == [hus[i].device]
    decreases |hus|
  {
    if hus != [] {
      var tail := hus[1..];
      DevicesWhereSingle(tail, sel);
      assert forall j :: 0 < j < |hus| ==> hus[j] == tail[j - 1];
      if Selects(sel, hus[0]) {
        if DevicesWhere(tail, sel) == [] {
          assert forall j :: 0 < j < |hus| ==> !Selects(sel, hus[j]) by {
            forall j | 0 < j < |hus|
              ensures !Selects(sel, hus[j])
            {
              assert Selects(sel, tail[j - 1]) ==> tail[j - 1].device in DevicesWhere(tail, sel);
            }
          }
          assert OnlyIndex(hus, sel, 0);
        } else {
          var d := DevicesWhere(tail, sel)[0];
          assert d in DevicesWhere(tail, sel);
          var k :| 0 <= k < |tail| && Selects(sel, tail[k]) && tail[k].device == d;
          assert Selects(sel, hus[k + 1]);
          forall i | OnlyIndex(hus, sel, i)
            ensures false
          {
          }
        }
      } else {
        forall i | OnlyIndex(hus, sel, i)
          ensures OnlyIndex(tail, sel, i - 1)
        {
          assert i != 0;
          forall j | 0 <= j < |tail| && Selects(sel, tail[j])
            ensures j == i - 1
          {
            assert Selects(sel, hus[j + 1]);
          }
        }
        forall i | OnlyIndex(tail, sel, i)
          ensures OnlyIndex(hus, sel, i + 1)
        {
          forall j | 0 <= j < |hus| && Selects(sel, hus[j])
            ensures j == i + 1
          {
            assert j != 0 && Selects(sel, tail[j - 1]);
          }
        }
      }
    }
  }

  /** A declared disk resolves to device `i` when `i` is the only device its
      links match, or when no device's links match and `i` is the only
      device named after it. */
  ghost predicate Resolves(hus: seq<BlockDevice>, disk: KsDisk, i: int) {
    || OnlyIndex(hus, ByLinks(disk), i)
    || (NoneSelected(hus, ByLinks(disk)) && OnlyIndex(hus, ByName(disk.name), i))
  }

  /** The device lookup succeeds exactly when the disk resolves to one
      device, and then yields that device's path. */
  lemma DiskDevResolves(disk: KsDisk, hus: seq<BlockDevice>)
    ensures DiskDev(disk, hus).Ok? <==> exists i :: Resolves(hus, disk, i)
    ensures forall i :: Resolves(hus, disk, i) ==> DiskDev(disk, hus) == Ok(hus[i].device)
  {
    DevicesWhereSingle(hus, ByLinks(disk));
    DevicesWhereSingle(hus, ByName(disk.name));
    var matched := DevicesWhere(hus, ByLinks(disk));
    if matched == [] {
      forall j | 0 <= j < |hus|
        ensures !Selects(ByLinks(disk), hus[j])
      {
        assert Selects(ByLinks(disk), hus[j]) ==> hus[j].device in matched;
      }
      assert NoneSelected(hus, ByLinks(disk));
      forall i | Resolves(hus, disk, i)
        ensures OnlyIndex(hus, ByName(disk.name), i)
      {
      }
      forall i | OnlyIndex(hus, ByName(disk.name), i)
        ensures Resolves(hus, disk, i)
      {
      }
    } else {
      assert matched[0] in matched;
      var k :| 0 <= k < |hus| && Selects(ByLinks(disk), hus[k]) && hus[k].device == matched[0];
      assert !NoneSelected(hus, ByLinks(disk));
      forall i | Resolves(hus, disk, i)
        ensures OnlyIndex(hus, ByLinks(disk), i)
      {
      }
      forall i | OnlyIndex(hus, ByLinks(disk), i)
        ensures Resolves(hus, disk, i)
      {
      }
    }
  }

  /** Two devices whose links both match the disk: the lookup refuses to
      guess, whatever the names say. */
  lemma DiskDevRefusesAmbiguity(disk: KsDisk, hus: seq<BlockDevice>, i: int, j: int)
    requires 0 <= i < j < |hus|
    requires MatchDevice(hus[i], disk) && MatchDevice(hus[j], disk)
    ensures DiskDev(disk, hus) == Failure(DiskNotFound(disk.name))
  {
    DiskDevResolves(disk, hus);
    assert Selects(ByLinks(disk), hus[i]) && Selects(ByLinks(disk), hus[j]);
  }

  /** A device whose links match the disk always wins over one that only
      carries its name. */
  lemma DiskDevPrefersLinks(disk: KsDisk, hus: seq<BlockDevice>, i: int)
    requires 0 <= i < |hus| && MatchDevice(hus[i], disk)
    requires forall j :: 0 <= j < |hus| && j != i ==> !MatchDevice(hus[j], disk)
    ensures DiskDev(disk, hus) == Ok(hus[i].device)
  {
    DiskDevResolves(disk, hus);
    assert OnlyIndex(hus, ByLinks(disk), i);
  }
}
