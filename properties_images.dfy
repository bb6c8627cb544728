/** The image scheme: which file systems get an image, and where it goes. */
module ImageProperties {
  import opened Scheme
  import opened NailgunLayout
  import opened PlanProperties

  /** The image the catalogue entry of `fs`'s mount point gives `fs`. */
  function FsImage(fs: Fs, catalog: map<string, ImageData>): Image
    requires fs.mount in catalog
  {
    Image(catalog[fs.mount].uri, fs.device, catalog[fs.mount].format, catalog[fs.mount].container)
  }

  /** An image is in the scheme exactly when it is the catalogue's image for
      one of the file systems whose mount point the catalogue names. */
  lemma {:induction false} ImagesForMembers(fss: seq<Fs>, catalog: map<string, ImageData>, img: Image)
    ensures img in ImagesFor(fss, catalog) <==>
              exists f :: 0 <= f < |fss| && fss[f].mount in catalog && img == FsImage(fss[f], catalog)
    decreases |fss|
  {
    if fss != [] {
      var init := fss[..|fss| - 1];
      ImagesForMembers(init, catalog, img);
      if exists f :: 0 <= f < |fss| && fss[f].mount in catalog && img == FsImage(fss[f], catalog) {
        var f :| 0 <= f < |fss| && fss[f].mount in catalog && img == FsImage(fss[f], catalog);
        if f < |fss| - 1 {
          assert init[f] == fss[f];
        }
      }
      if exists f :: 0 <= f < |init| && init[f].mount in catalog && img == FsImage(init[f], catalog) {
        var f :| 0 <= f < |init| && init[f].mount in catalog && img == FsImage(init[f], catalog);
        assert fss[f] == init[f];
      }
    }
  }

  /** The images keep file-system order: the images of a split list of file
      systems are those of the first part followed by those of the second. */
  lemma {:induction false} ImagesForAppend(a: seq<Fs>, c: seq<Fs>, catalog: map<string, ImageData>)
    ensures ImagesFor(a + c, catalog) == ImagesFor(a, catalog) + ImagesFor(c, catalog)
    decreases |c|
  {
    if c == [] {
      assert a + c == a;
    } else {
      var init := c[..|c| - 1];
      assert (a + c)[..|a + c| - 1] == a + init && (a + c)[|a + c| - 1] == c[|c| - 1];
      ImagesForAppend(a, init, catalog);
    }
  }

  /** One file system gets its catalogue image exactly when its mount point
      is catalogued. */
  lemma ImagesForSingle(fs: Fs, catalog: map<string, ImageData>)
    ensures ImagesFor([fs], catalog) == if fs.mount in catalog then [FsImage(fs, catalog)] else []
  {
    assert [fs][..0] == [];
  }

  /** When the catalogue names every mount point, image `k` is the one of
      file system `k`. */
  lemma {:induction false} ImagesForAllCatalogued(fss: seq<Fs>, catalog: map<string, ImageData>)
    requires forall f :: 0 <= f < |fss| ==> fss[f].mount in catalog
    ensures |ImagesFor(fss, catalog)| == |fss|
    ensures forall k :: 0 <= k < |fss| ==> ImagesFor(fss, catalog)[k] == FsImage(fss[k], catalog)
    decreases |fss|
  {
    if fss != [] {
      var init := fss[..|fss| - 1];
      assert forall f :: 0 <= f < |init| ==> init[f] == fss[f];
      ImagesForAllCatalogued(init, catalog);
    }
  }

  /** A catalogue that names no mount point gives no image. */
  lemma {:induction false} ImagesForNoneCatalogued(fss: seq<Fs>, catalog: map<string, ImageData>)
    requires forall f :: 0 <= f < |fss| ==> fss[f].mount !in catalog
    ensures ImagesFor(fss, catalog) == []
    decreases |fss|
  {
    if fss != [] {
      var init := fss[..|fss| - 1];
      assert forall f :: 0 <= f < |init| ==> init[f] == fss[f];
      ImagesForNoneCatalogued(init, catalog);
    }
  }

  /** In a sound partition scheme every image goes to a partition or
      logical volume of that scheme. */
  lemma ImageTargetsNamed(plan: Plan, catalog: map<string, ImageData>)
    requires Sound(plan)
    ensures forall img :: img in ImagesFor(plan.fss, catalog) ==> Names(plan, img.targetDevice)
  {
    forall img | img in ImagesFor(plan.fss, catalog)
      ensures Names(plan, img.targetDevice)
    {
      ImagesForMembers(plan.fss, catalog, img);
    }
  }
}
