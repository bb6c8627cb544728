# Nailgun disk-layout planner, in Dafny

This project models the disk-layout planner of the Fuel provisioning agent's
Nailgun driver (`fuel_agent/fuel_agent/drivers/nailgun.py`) and the VLAN-id
generator of the Contrail network manager
(`nailgun/nailgun/network/contrail.py`).

The driver reads two inputs:

- the node's declared storage layout (`ks_spaces`): disks with their
  volumes, and volume groups with theirs;
- the block devices found on the machine.

From them it builds a partition scheme:

- one GPT parted per declared disk of positive size, resolved to a real
  device through its udev links or its name;
- on each parted, the 24-unit `bios_grub` partition and the 200-unit UEFI
  partition first;
- then one partition per declared volume, with file-system, volume-group and
  RAID bindings;
- Ceph journal partitions spread over the journal devices;
- a single 20-unit config-drive partition;
- logical volumes with their file systems.

From the finished scheme the driver builds an image scheme, one image per
file system whose mount point the image catalogue names. It also looks up
the admin interface by MAC address for the config-drive scheme.

Layout of the model:

- `wrappers.dfy`: `Option`, `Result` and `Outcome`.
- `scheme.dfy`: the scheme objects the driver fills in.
  - `Plan` is the partition scheme as a value.
  - `PartitionScheme` and `ImageScheme` are classes whose methods append to
    sequence fields.
- `layout.dfy`: the declared layout and the driver's rules as functions.
  - the device rules: `MatchDevice`, `DiskDev`;
  - `GetLabel` and the `ks_disks`/`ks_vgs` filters;
  - the partition scheme as left folds over disks, volumes and volume
    groups (`PartitionSchemeSpec`);
  - the image catalogue lookup (`ImagesFor`);
  - the admin-interface lookup.
- `nailgun.dfy`: the driver's loops as methods. Each one mutates a
  `PartitionScheme` or `ImageScheme` and is proved equal to the fold that
  specifies it.
- `properties_*.dfy`: what the scheme promises.
  - device resolution;
  - the effect of every kind of volume;
  - parted shape and the single config-drive partition;
  - journal placement;
  - logical volumes;
  - the image scheme;
  - the admin interface.
- `findings.dfy`: the journal loop bound as written, next to the intended one.
- `contrail.dfy`: `generate_vlan_ids_list`.

Partition and logical-volume names come from the scheme objects, which are
not part of this model. They are kept symbolic:

- a partition is `PartitionDevice(disk, position)`, its position counted
  from 1 on its disk;
- a logical volume is `LvDevice(vg, name)`.

Some behaviour one would expect of the planner differs from its code. The
model follows the code:

- **Admin interface.** One might expect the lookup to refuse an ambiguous
  admin interface, one whose MAC address more than one interface carries. The code takes the
  first match (`filter(...)[0]`) and fails only when there is none.
- **Undeclared volume groups.** One might expect a `pv` or `lv` that names
  an undeclared volume group to be rejected. The code checks no
  such thing. The only failures it has there are a missing `vg` key on a
  `pv` volume and a missing `name` key on an `lv` volume.
- **No journal devices.** One might expect `ceph_journals == 0` to be
  treated as a precondition violation. In the code that branch is only reached with a
  journal volume of positive size, so the count is at least 1.
- **No OSD volumes.** When there are no OSD volumes the ratio is 0, and the
  size division fails. The model's `ZeroDivision` error is that failure.

There is one place where the model does not follow the code: the bound of
the journal loop. Under Python 2.7 `math.ceil` returns a float, so the code
as written passes a float to `range` whenever `ratio < journals_left`, and
that raises `TypeError`. `NailgunLayout.VolumeStep`, `Nailgun.PlanVolume`
and hence `NailgunLayout.PartitionSchemeSpec` and `Nailgun.PartitionSchemeOf`
use the intended bound `NailgunLayout.JournalEnd` instead, which is
`min(ratio, journals_left)`. For those inputs they return a scheme where the
code fails. "## Findings" records the discrepancy, and
`Findings.JournalEndAsWritten` models the bound as written.

## Model

| member | source | states |
|---|---|---|
| NailgunLayout.MatchDevice | fuel_agent/fuel_agent/drivers/nailgun.py:26-52 | True exactly when the device has udev links and either (a) some `extra` name's `/dev/` path is one of them and is a by-id link, or (b) the `/dev/` path of the disk id is one of them. False whenever the device has no links. |
| NailgunLayout.SharesByIdLink | fuel_agent/fuel_agent/drivers/nailgun.py:40-45 | True exactly when some link is in both lists and starts with `/dev/disk/by-id`. |
| NailgunLayout.DevicesWhere | fuel_agent/fuel_agent/drivers/nailgun.py:88-93 | The paths collected are exactly those of the discovered devices the rule accepts, and there are never more of them than devices. |
| NailgunLayout.DiskDev | fuel_agent/fuel_agent/drivers/nailgun.py:85-98 | Every failure is `DiskNotFound` carrying the declared disk's name. |
| DeviceProperties.DevicesWhereSingle | fuel_agent/fuel_agent/drivers/nailgun.py:88-95 | A rule yields exactly one path iff exactly one device satisfies it, and that path is the device's. |
| DeviceProperties.DiskDevResolves | fuel_agent/fuel_agent/drivers/nailgun.py:85-98 | The lookup succeeds iff one of two cases holds, and then it returns that device's path. Case 1: exactly one device link-matches. Case 2: no device link-matches and exactly one device is `/dev/<name>`. |
| DeviceProperties.DiskDevRefusesAmbiguity | fuel_agent/fuel_agent/drivers/nailgun.py:94-97 | Two link-matching devices make the lookup fail with `DiskNotFound`, whatever the names say. |
| DeviceProperties.DiskDevPrefersLinks | fuel_agent/fuel_agent/drivers/nailgun.py:88-94 | A single link-matching device is chosen even when other devices carry the disk's name. |
| NailgunLayout.GetLabel | fuel_agent/fuel_agent/drivers/nailgun.py:100-105 | Absent or empty label gives `""`. Otherwise the result is `" -L "`, then the label's first `min(len, 12)` characters, then `" "`. |
| NailgunLayout.KsDisks | fuel_agent/fuel_agent/drivers/nailgun.py:64-67 | A disk is kept iff it is a `disk` entry of the layout with positive size. `KsDisksAppend` and `KsDisksSingle` give the order. |
| NailgunLayout.KsVgs | fuel_agent/fuel_agent/drivers/nailgun.py:69-72 | A volume group is kept iff it is a `vg` entry of the layout. `KsVgsAppend` and `KsVgsSingle` give the order. |
| NailgunLayout.KsDisksAppend | fuel_agent/fuel_agent/drivers/nailgun.py:64-67 | The disks of a concatenated layout are the disks of the first part followed by those of the second. With `KsDisksSingle` this fixes the kept disks, in layout order, each occurrence once. |
| NailgunLayout.KsDisksSingle | fuel_agent/fuel_agent/drivers/nailgun.py:66-67 | One entry gives its disk iff it is a `disk` of positive size, and nothing otherwise. |
| NailgunLayout.KsVgsAppend | fuel_agent/fuel_agent/drivers/nailgun.py:69-72 | The volume groups of a concatenated layout are those of the first part followed by those of the second. |
| NailgunLayout.KsVgsSingle | fuel_agent/fuel_agent/drivers/nailgun.py:71-72 | One entry gives its volume group iff it is a `vg`. |
| NailgunLayout.NamedVolumesMembers | fuel_agent/fuel_agent/drivers/nailgun.py:110-111 | The volumes counted are exactly those with the given name and positive size. |
| NailgunLayout.NamedVolumesMultiset | fuel_agent/fuel_agent/drivers/nailgun.py:110-111 | The filter keeps a volume as many times as it occurs when it has the name and a positive size, and drops it otherwise. So the length of the filtered list is the number of such volumes. |
| Nailgun.GetPartitionCount | fuel_agent/fuel_agent/drivers/nailgun.py:107-112 | The loop's count equals `PartitionCount`. That is the number of volumes with the name and a positive size over all filtered disks: see `PartitionCountAppend`, `PartitionCountSingle` and `NamedVolumesMultiset`. |
| NailgunLayout.PartitionCount | fuel_agent/fuel_agent/drivers/nailgun.py:107-112 | The count is positive iff some filtered disk declares a volume with that name and a positive size. `NamedVolumesMembers` gives which volumes are counted. |
| NailgunLayout.PartitionCountAppend | fuel_agent/fuel_agent/drivers/nailgun.py:107-112 | The count over concatenated disk lists is the sum of the two counts. |
| NailgunLayout.PartitionCountSingle | fuel_agent/fuel_agent/drivers/nailgun.py:110-111 | One disk counts the length of its filtered volume list. |
| NailgunLayout.Ratio | fuel_agent/fuel_agent/drivers/nailgun.py:147 | The ratio is 0 iff there are no OSD volumes, and it is never more than their number. `RatioBounds` pins it down as the ceiling. |
| NailgunLayout.JournalRatio | fuel_agent/fuel_agent/drivers/nailgun.py:147 | The ratio used by the disk loop is positive iff there are both OSD volumes and journal volumes. Otherwise it is 0 and the division fails. |
| NailgunLayout.RatioBounds | fuel_agent/fuel_agent/drivers/nailgun.py:147 | The ratio is the ceiling of osds/journals: `journals * ratio >= osds`, and one fewer per device would not be enough. |
| NailgunLayout.JournalSizeBounds | fuel_agent/fuel_agent/drivers/nailgun.py:151-153 | A journal partition is `min(size / ratio, 10240)`. It is the volume's share whenever that is at most 10240, and 10240 otherwise. |
| NailgunLayout.JournalSize | fuel_agent/fuel_agent/drivers/nailgun.py:151-153 | A journal partition is never larger than 10240, and it is positive for a volume of positive size. |
| NailgunLayout.JournalEnd | fuel_agent/fuel_agent/drivers/nailgun.py:159-162 | The number of journal partitions for this device is `min(ratio, journals_left)`. |
| NailgunLayout.JournalLoop | fuel_agent/fuel_agent/drivers/nailgun.py:164-169 | Its own contract states only that the number of parteds is kept. `JournalLoopShape` states what the loop appends. |
| NailgunLayout.VolumeStep | fuel_agent/fuel_agent/drivers/nailgun.py:139-194 | One volume keeps the number of parteds and never raises `journals_left`. It fails only with `ZeroDivision` or `MissingKey("vg")`. Each kind of volume is described by `JournalVolumeStep` and `PlainVolumeStep`. The journal bound is the corrected one. |
| NailgunLayout.VolumesFold | fuel_agent/fuel_agent/drivers/nailgun.py:139-194 | The same over a disk's volumes, in order: the number of parteds is kept, `journals_left` never rises, and the only errors are `ZeroDivision` and `MissingKey("vg")`. |
| NailgunLayout.DiskStep | fuel_agent/fuel_agent/drivers/nailgun.py:129-198 | One disk adds exactly one parted and never raises `journals_left`. It fails only with `DiskNotFound` for that disk, `ZeroDivision` or `MissingKey("vg")`. `DiskStepShape` gives the parted's contents. |
| NailgunLayout.DisksFold | fuel_agent/fuel_agent/drivers/nailgun.py:129-198 | The filtered disks add one parted each, and `journals_left` never rises. The only errors are `DiskNotFound`, `ZeroDivision` and `MissingKey("vg")`. |
| NailgunLayout.LvStep | fuel_agent/fuel_agent/drivers/nailgun.py:201-214 | One volume of a group keeps the parteds and adds at most one logical volume. Its only error is `MissingKey("name")`. |
| NailgunLayout.LvsFold | fuel_agent/fuel_agent/drivers/nailgun.py:201-214 | A group's volumes keep the parteds and add at most one logical volume each. The only error is `MissingKey("name")`. |
| NailgunLayout.VgsFold | fuel_agent/fuel_agent/drivers/nailgun.py:200-214 | The volume groups keep the parteds and only add logical volumes. The only error is `MissingKey("name")`. |
| NailgunLayout.PartitionSchemeSpec | fuel_agent/fuel_agent/drivers/nailgun.py:120-218 | A returned scheme has one parted per filtered disk. The only errors are `ZeroDivision`, `MissingKey("vg")`, `MissingKey("name")` and `DiskNotFound`. The `SchemeProperties` lemmas state the rest. |
| PlanProperties.JournalLoopShape | fuel_agent/fuel_agent/drivers/nailgun.py:164-169 | The journal loop appends `end` equal partitions to the current parted, and only for a `partition` volume. The parted keeps its name, label and bootloader flag, and nothing else changes. |
| PlanProperties.JournalLoopSound | fuel_agent/fuel_agent/drivers/nailgun.py:164-169 | Journal partitions are never config-drive partitions. Positive journal sizes keep the scheme sound. |
| VolumeProperties.JournalVolumeStep | fuel_agent/fuel_agent/drivers/nailgun.py:143-170 | With ratio 0 a journal volume fails with `ZeroDivision`. Otherwise it decrements `journals_left` by at most `ratio`, and by exactly `ratio` unless that empties it. A `partition` volume gets that many partitions of the capped size. The current parted keeps its name, label and bootloader flag, and nothing else changes. |
| VolumeProperties.PlainVolumeStep | fuel_agent/fuel_agent/drivers/nailgun.py:172-194 | A `partition` volume adds its partition, plus one file system on it (default `xfs`) when mounted other than `none`. A `pv` adds a partition attached to its `vg`, and fails with `MissingKey("vg")` without one. A `raid` adds a partition, plus a RAID attachment when mounted. Other types add nothing. The current parted keeps its name, label and bootloader flag, and earlier parteds and logical volumes are untouched. |
| VolumeProperties.LvVolumeStep | fuel_agent/fuel_agent/drivers/nailgun.py:201-214 | An `lv` of positive size adds a logical volume of the group, plus one file system on it when mounted. It fails with `MissingKey("name")` without a name. Anything else adds nothing. |
| VolumeProperties.VolumesFoldSkipsEmpty | fuel_agent/fuel_agent/drivers/nailgun.py:139-141 | Volumes of size ≤ 0 on a disk change nothing: a disk plans exactly like its positive-size volumes alone. |
| VolumeProperties.LvsFoldSkipsEmpty | fuel_agent/fuel_agent/drivers/nailgun.py:201-203 | The same holds for the volumes of a volume group. |
| VolumeProperties.PositiveAppend | fuel_agent/fuel_agent/drivers/nailgun.py:139-141 | Dropping volumes of size ≤ 0 keeps declaration order: the positive volumes of a concatenation are those of each part, in turn. |
| PlanProperties.VolumesFoldEffect | fuel_agent/fuel_agent/drivers/nailgun.py:139-194 | A disk's volumes only append, touch only the current parted, add no config-drive partition and keep the scheme sound. |
| PlanProperties.VolumesFoldJournals | fuel_agent/fuel_agent/drivers/nailgun.py:139-170 | After a disk's volumes, the journals still owed are the ones before, less `ratio` per journal volume, floored at 0. |
| PlanProperties.OwedClosedForm | fuel_agent/fuel_agent/drivers/nailgun.py:159-165 | After `n` journal volumes, `max(0, before - n * ratio)` journals are still owed. |
| PlanProperties.DiskStepShape | fuel_agent/fuel_agent/drivers/nailgun.py:129-198 | Each disk adds one parted for its resolved device, with label `gpt`, the bootloader, and the 24 `bios_grub` and 200 partitions first. Earlier parteds and the logical volumes are untouched, and soundness is kept. |
| PlanProperties.DiskStepConfigdrive | fuel_agent/fuel_agent/drivers/nailgun.py:196-198 | On the first disk the config-drive partition becomes the last partition. Later disks leave the config-drive partitions as they are. |
| PlanProperties.DisksFoldShape | fuel_agent/fuel_agent/drivers/nailgun.py:129-198 | After the disk loop, parted `k` is disk `k`'s, shaped as above, and the scheme stays sound. |
| PlanProperties.DisksFoldConfigdrive | fuel_agent/fuel_agent/drivers/nailgun.py:196-198 | Starting from no config-drive partition, the disk loop leaves exactly one, on the first disk, when there is a disk, and none otherwise. |
| PlanProperties.DisksFoldJournals | fuel_agent/fuel_agent/drivers/nailgun.py:125-170 | Over all disks, `journals_left` ends at the OSD count less `ratio` per journal volume, floored at 0. |
| Nailgun.PlanVolume | fuel_agent/fuel_agent/drivers/nailgun.py:139-194 | The volume step, in place on the scheme object, gives exactly the scheme and journal count (or error) that `VolumeStep` gives. |
| Nailgun.PlanDisk | fuel_agent/fuel_agent/drivers/nailgun.py:129-198 | The per-disk steps on the scheme object give exactly the specified disk step. |
| Nailgun.PlanDisks | fuel_agent/fuel_agent/drivers/nailgun.py:125-198 | The disk loop on the scheme object gives exactly the specified fold, or its first error. |
| Nailgun.PlanVg | fuel_agent/fuel_agent/drivers/nailgun.py:201-214 | One volume group's loop gives exactly the specified fold over its volumes. |
| Nailgun.PlanVgs | fuel_agent/fuel_agent/drivers/nailgun.py:200-214 | The volume-group loop gives exactly the specified fold, or its first error. |
| Nailgun.PartitionSchemeOf | fuel_agent/fuel_agent/drivers/nailgun.py:120-218 | `partition_scheme` returns exactly the specified scheme, or its error. |
| LvProperties.LvsFoldEffect | fuel_agent/fuel_agent/drivers/nailgun.py:201-214 | A group's volumes leave parteds and attachments alone, only append, add logical volumes of that group only, and keep soundness. |
| LvProperties.VgsFoldEffect | fuel_agent/fuel_agent/drivers/nailgun.py:200-214 | The same for all groups: every new logical volume belongs to a declared group. |
| LvProperties.LvsFoldFails | fuel_agent/fuel_agent/drivers/nailgun.py:205-208 | A group's volumes fail iff one is a positive-size `lv` without a name, and then with `MissingKey("name")`. |
| LvProperties.VgsFoldFails | fuel_agent/fuel_agent/drivers/nailgun.py:200-208 | The volume-group phase fails iff some group has such a volume. |
| SchemeProperties.PartitionSchemeSound | fuel_agent/fuel_agent/drivers/nailgun.py:120-218 | A returned scheme is sound. Every partition and logical volume has a positive size. Every file system is mounted other than `none`. Every file system, `pv` attachment and RAID attachment names a partition or logical volume of the scheme. |
| SchemeProperties.PartitionSchemeParteds | fuel_agent/fuel_agent/drivers/nailgun.py:129-137 | A returned scheme has one parted per filtered disk, in layout order. Each is on the disk's resolved device, labelled `gpt`, with the bootloader, and starts with the 24 `bios_grub` and 200 partitions. |
| SchemeProperties.PartitionSchemeConfigdrive | fuel_agent/fuel_agent/drivers/nailgun.py:196-198 | A returned scheme has exactly one config-drive partition, the last one of the first disk, when there is a disk, and none otherwise. |
| SchemeProperties.PartitionSchemeLvs | fuel_agent/fuel_agent/drivers/nailgun.py:200-208 | Every logical volume of a returned scheme belongs to a declared volume group. |
| SchemeProperties.PartitionSchemeNamelessLv | fuel_agent/fuel_agent/drivers/nailgun.py:200-208 | Once the disks are planned, the scheme fails iff a group declares a nameless `lv` of positive size, and then with `MissingKey("name")`. |
| SchemeProperties.JournalsAllPlaced | fuel_agent/fuel_agent/drivers/nailgun.py:125-170 | With journal volumes, there is an OSD volume and every OSD gets a journal slot: `journals_left` ends at 0. Without, it stays at the OSD count. |
| SchemeProperties.JournalsWithoutOsdsFail | fuel_agent/fuel_agent/drivers/nailgun.py:147-151 | Journal volumes with no OSD volume make the whole scheme fail. |
| Scheme.Plan.ConfigdriveDevice | fuel_agent/fuel_agent/drivers/nailgun.py:197 | Its own contract is empty. `ConfigdriveDeviceMarked` states what it returns: none iff no partition is marked config-drive, and otherwise a marked one. |
| Scheme.ConfigdriveDeviceMarked | fuel_agent/fuel_agent/drivers/nailgun.py:197 | `configdrive_device()` is None iff no partition is marked config-drive, and otherwise names a marked one. |
| Scheme.PartitionScheme.constructor | fuel_agent/fuel_agent/drivers/nailgun.py:123 | A new partition scheme is empty. |
| Scheme.PartitionScheme.AddParted | fuel_agent/fuel_agent/drivers/nailgun.py:130-131 | Appends an empty parted with the given device and label. |
| Scheme.PartitionScheme.SetInstallBootloader | fuel_agent/fuel_agent/drivers/nailgun.py:133 | Sets the bootloader flag of the parted added last, and nothing else. |
| Scheme.PartitionScheme.AddPartition | fuel_agent/fuel_agent/drivers/nailgun.py:135-137 | Appends a partition to the parted added last and returns its name. |
| Scheme.PartitionScheme.AddFs | fuel_agent/fuel_agent/drivers/nailgun.py:180-183 | Appends one file system. |
| Scheme.PartitionScheme.VgAttachByName | fuel_agent/fuel_agent/drivers/nailgun.py:186-187 | Appends one `pv`-to-group attachment. |
| Scheme.PartitionScheme.MdAttachByMount | fuel_agent/fuel_agent/drivers/nailgun.py:191-194 | Appends one RAID attachment. |
| Scheme.PartitionScheme.AddLv | fuel_agent/fuel_agent/drivers/nailgun.py:206-208 | Appends one logical volume and returns its device name. |
| Scheme.ImageScheme.AddImage | fuel_agent/fuel_agent/drivers/nailgun.py:273-280 | Appends one image with the given uri, target, format and container. |
| Nailgun.ImageSchemeOf | fuel_agent/fuel_agent/drivers/nailgun.py:261-281 | The loop over the file systems gives exactly the specified images, in file-system order. |
| NailgunLayout.ImagesFor | fuel_agent/fuel_agent/drivers/nailgun.py:269-280 | Its own contract states only that there are never more images than file systems. `ImagesForMembers` states which images there are, and `ImagesForAppend` and `ImagesForSingle` state their order. |
| ImageProperties.ImagesForAppend | fuel_agent/fuel_agent/drivers/nailgun.py:269-280 | The images of concatenated file-system lists are those of the first part followed by those of the second: images come in file-system order. |
| ImageProperties.ImagesForSingle | fuel_agent/fuel_agent/drivers/nailgun.py:270-280 | One file system gives its catalogue image iff its mount point is catalogued, and nothing otherwise. |
| ImageProperties.ImagesForMembers | fuel_agent/fuel_agent/drivers/nailgun.py:269-280 | An image is in the scheme iff it is the catalogue entry of some file system whose mount is catalogued, targeted at that file system's device. |
| ImageProperties.ImagesForAllCatalogued | fuel_agent/fuel_agent/drivers/nailgun.py:269-280 | With every mount catalogued, image `k` is file system `k`'s. |
| ImageProperties.ImagesForNoneCatalogued | fuel_agent/fuel_agent/drivers/nailgun.py:269-271 | With no mount catalogued, there are no images. |
| ImageProperties.ImageTargetsNamed | fuel_agent/fuel_agent/drivers/nailgun.py:269-275 | In a sound scheme every image targets a partition or logical volume of the scheme. |
| NailgunLayout.InterfacesWithMac | fuel_agent/fuel_agent/drivers/nailgun.py:224-227 | The filter keeps exactly the interfaces with the chosen MAC address. |
| NailgunLayout.AdminInterface | fuel_agent/fuel_agent/drivers/nailgun.py:224-228 | The lookup succeeds iff some interface has the chosen MAC address, and returns one such interface. Otherwise it fails (the `[0]` on an empty list). |
| ConfigdriveProperties.AdminInterfaceFirst | fuel_agent/fuel_agent/drivers/nailgun.py:224-228 | The interface returned is the first one with that MAC address, in the order the interfaces are given. |
| NailgunLayout.ConfigdriveAdmin | fuel_agent/fuel_agent/drivers/nailgun.py:224-241 | The admin fields are the chosen MAC, and the IP, netmask and name of an interface with that MAC. The lookup fails iff there is none. |
| Contrail.GenerateVlanIdsList | nailgun/nailgun/network/contrail.py:42-47 | No `vlan_start` gives `[]`. Otherwise a missing `amount` fails. Otherwise the result has `max(0, amount)` ids, id `i` is `vlan_start + i`, ids strictly increase, and they are exactly `[vlan_start, vlan_start + amount)`. `data` and `cluster` play no part. |
| Contrail.RangeElements | nailgun/nailgun/network/contrail.py:46-47 | `range(lo, hi)` has `max(0, hi - lo)` elements, and element `i` is `lo + i`. |
| Findings.JournalEndAsWritten | fuel_agent/fuel_agent/drivers/nailgun.py:159-164 | When the loop bound as written is usable, it is the intended `min(ratio, journals_left)`. |
| Findings.AsWrittenFailsIff | fuel_agent/fuel_agent/drivers/nailgun.py:159-164 | The bound as written is unusable exactly when the intended bound `min(ratio, journals_left)` falls short of `journals_left`, that is, whenever `ratio < journals_left`. |
| Findings.FiveOsdsTwoJournals | fuel_agent/fuel_agent/drivers/nailgun.py:155-164 | 5 OSDs and 2 journal devices give ratio 3. The bound as written fails on the first device. The intended bound gives 3 and then 2. |

## Left out

- Scheme.PartitionScheme.MdAttachByMount, NailgunLayout.ImagesFor: a
  mounted `raid` volume is recorded only as an `MdAttachment` carrying its
  mount, file-system type and label. It is never added to `fss`. The
  collaborator that defines `md_attach_by_mount` is not part of this model,
  so how it assigns a file system to the array is not modelled. As a
  result, the image scheme, which reads only `fss`, never targets a RAID
  array. `ImageProperties.ImageTargetsNamed` and the `fss` clause of
  soundness hold partly because of this split.
- Hardware enumeration: `hu.list_block_devices` and its cache are not
  modelled. The discovered devices are a parameter.
- Layout validation: `ks_spaces_validator.validate` is not modelled. A
  layout is a typed value: keys that must be present are fields, and
  optional keys (`name`, `mount`, `file_system`, `disk_label`,
  `partition_guid`, `vg`, `id`, `extra`) are options.
- Scheme objects: the collaborator that defines them is not part of this
  model.
  - Partition and logical-volume names are symbolic.
  - `prt.set_guid` is folded into the partition's `guid` field.
  - The kernel parameters appended at the end of `partition_scheme` are not
    modelled.
- Other config-drive fields: the fields of `set_common` other than the
  admin ones, and `set_puppet`, `set_mcollective`, `set_profile`, are not
  modelled. They copy input fields with no logic.
- Floating point: the ratio is an integer ceiling, and a journal partition's
  size is an exact real. IEEE rounding is not modelled.
- Interface order: the interfaces dictionary's iteration order is
  unspecified. The interfaces are a sequence given in that order. Which of
  several matching interfaces wins depends on it.
- Ratio computed once: in NailgunLayout.JournalRatio the ratio is computed once, not at every
  journal volume. It depends only on the two counts, which do not change
  during the loop, so the result is the same.
- NailgunLayout.VolumeStep, Nailgun.PlanVolume, NailgunLayout.PartitionSchemeSpec and Nailgun.PartitionSchemeOf
  do not model the `TypeError` that Python 2.7 raises for the journal loop
  bound as written. They take the corrected bound described under
  "## Findings".
- Unreachable guard: Nailgun.PlanVolume also tests `journals == 0` before dividing.
  The source cannot reach that case.
- Missing keys are the failures of the model; `KeyError` has no other form.
  - A `pv` volume without `vg` fails after its partition is added.
  - A disk without `volumes`, and an image catalogue entry without `uri`,
    `format` or `container`, are ruled out by the types.
- Error values: exceptions become values of an error type.
  `DiskNotFoundError` is `DiskNotFound(name)`. `ZeroDivisionError` is
  `ZeroDivision`. `KeyError` is `MissingKey`. The `IndexError` of the
  interface lookup is `NoAdminInterface`. The `TypeError` of `int(None)` in
  `generate_vlan_ids_list` is `AmountMissing`. Messages are not modelled.
- `ContrailManager.update` and the rest of the Contrail manager are not
  modelled. They are database updates and commits.
- Python integer conversion: `vlan_start` and `amount` are integers.
  `int()` of a string is not modelled.

## Findings

| source | as written | input that shows it | evidently intended | confidence | as-written member | corrected member |
|---|---|---|---|---|---|---|
| fuel_agent/fuel_agent/drivers/nailgun.py:147-164 | `ratio` comes from `math.ceil`, which returns a float under Python 2.7. When `ratio < journals_left` it becomes the bound of `range(0, end)`, and `range` rejects a float bound with `TypeError`. | 5 `ceph` volumes and 2 `cephjournal` volumes: ratio 3.0 < 5 on the first journal device. | An integer bound, placing 3 journal partitions and then 2, as the comment at lines 155-158 describes. | medium (depends on the interpreter version), not executed | Findings.JournalEndAsWritten | NailgunLayout.JournalEnd |
