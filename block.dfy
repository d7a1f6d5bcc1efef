/**
 * A UDisks2 block device as the storage model sees it: the interface property
 * maps the UDisks2 daemon publishes for one object path, the flags derived
 * from them (mountable, encrypted), the formatting and locking marks that the
 * storage manager sets, and the four outstanding `GetAll` requests a block
 * issues while it learns its own properties.
 *
 * The D-Bus calls are not modelled: issuing a request sets its pending flag
 * and each reply is a method that takes the outcome as a parameter.
 */
module Udisks2 {
  import opened Text
  import opened Variants
  import opened QMaps

  const BlockInterface := "org.freedesktop.UDisks2.Block"
  const DriveInterface := "org.freedesktop.UDisks2.Drive"
  const FilesystemInterface := "org.freedesktop.UDisks2.Filesystem"
  const EncryptedInterface := "org.freedesktop.UDisks2.Encrypted"

  /** The four interface names are distinct. */
  lemma InterfacesDistinct()
    ensures BlockInterface != DriveInterface && BlockInterface != FilesystemInterface && BlockInterface != EncryptedInterface
    ensures DriveInterface != FilesystemInterface && DriveInterface != EncryptedInterface
    ensures FilesystemInterface != EncryptedInterface
  {
    assert BlockInterface[24] != DriveInterface[24];
    assert |BlockInterface| != |FilesystemInterface| && |BlockInterface| != |EncryptedInterface|;
    assert |DriveInterface| != |FilesystemInterface| && |DriveInterface| != |EncryptedInterface|;
    assert |FilesystemInterface| != |EncryptedInterface|;
  }

  /** Block property naming the object path of the device an unlocked crypto block sits on. */
  const CryptoBackingDeviceKey := "CryptoBackingDevice"

  /** The object path prefix under which UDisks2 publishes block devices, `/org/freedesktop/UDisks2/block_devices/`, written field by field. */
  const BlockDevicesPrefix := "/" + "org" + "/" + "freedesktop" + "/" + "UDisks2" + "/" + "block_devices" + "/"

  /** Preferred device names of the internal home and root volumes. */
  const InternalDevices := {"/dev/sailfish/home", "/dev/sailfish/root"}

  /** Properties of every interface of one object path, by interface name. */
  type InterfacePropertyMap = map<string, PropertyMap>

  /** Number of occurrences of `c` in `s`. */
  function Count(s: string, c: char): (n: nat)
    ensures n <= |s|
  {
    if s == [] then 0 else (if s[0] == c then 1 else 0) + Count(s[1..], c)
  }

  /**
   * `QString::section(sep, n)` for `n >= 0`: the fields of `s` from the `n`-th
   * on, fields being the text between separators and empty fields counting.
   * That is the text after the `n`-th separator, or empty when `s` has fewer.
   */
  function SectionFrom(s: string, sep: char, n: nat): string
    decreases s
  {
    if n == 0 then s
    else if s == [] then []
    else if s[0] == sep then SectionFrom(s[1..], sep, n - 1)
    else SectionFrom(s[1..], sep, n)
  }

  /**
   * The section starts right after the `n`-th separator: the text before it
   * holds exactly `n` separators and ends with one. With fewer separators the
   * section is empty.
   */
  lemma {:induction false} SectionFromSeparators(s: string, sep: char, n: nat)
    ensures |SectionFrom(s, sep, n)| <= |s| && SectionFrom(s, sep, n) == s[|s| - |SectionFrom(s, sep, n)|..]
    ensures Count(s, sep) < n ==> SectionFrom(s, sep, n) == []
    ensures n <= Count(s, sep) ==> Count(s[..|s| - |SectionFrom(s, sep, n)|], sep) == n
    ensures 0 < n <= Count(s, sep) ==> |SectionFrom(s, sep, n)| < |s| && s[|s| - |SectionFrom(s, sep, n)| - 1] == sep
    decreases s
  {
    if n > 0 && s != [] {
      var m := if s[0] == sep then n - 1 else n;
      SectionFromSeparators(s[1..], sep, m);
      var r := SectionFrom(s, sep, n);
      assert r == SectionFrom(s[1..], sep, m);
      assert s[..|s| - |r|][1..] == s[1..][..|s| - 1 - |r|];
    }
  }

  /** Skipping one separator-free field moves the section one field on. */
  lemma {:induction false} SectionSkipsField(s: string, w: string, rest: string, sep: char, n: nat)
    requires s == w + [sep] + rest
    requires forall i :: 0 <= i < |w| ==> w[i] != sep
    ensures SectionFrom(s, sep, n + 1) == SectionFrom(rest, sep, n)
  {
    if w == [] {
      assert s[1..] == rest;
    } else {
      SectionSkipsField(s[1..], w[1..], rest, sep, n);
    }
  }

  /**
   * `Block::cryptoBackingDevicePath(objectPath)`: the device node of a backing
   * object path, empty for the empty path and for the root path `/`.
   */
  function CryptoBackingDevicePathOf(objectPath: string): (r: string)
    ensures r != [] <==> HasBackingDevice(objectPath)
    ensures r != [] ==> StartsWith(r, "/dev/")
  {
    if objectPath == "/" || objectPath == "" then ""
    else "/dev/" + SectionFrom(objectPath, '/', 5)
  }

  /** An object path that names a backing device: neither empty nor `/`. */
  predicate HasBackingDevice(objectPath: string) {
    objectPath != "" && objectPath != "/"
  }

  /** Section 1 is the text after the first separator. */
  lemma {:induction false} SectionAfterFirstField(s: string, w: string, rest: string, sep: char)
    requires s == w + [sep] + rest
    requires forall i :: 0 <= i < |w| ==> w[i] != sep
    ensures SectionFrom(s, sep, 1) == rest
  {
    if w == [] {
      assert s[1..] == rest;
    } else {
      SectionAfterFirstField(s[1..], w[1..], rest, sep);
    }
  }

  /** The section after five separator-free fields is the rest of the path. */
  lemma SectionAfterFiveFields(a: string, b: string, c: string, d: string, name: string)
    requires forall i :: 0 <= i < |a| ==> a[i] != '/'
    requires forall i :: 0 <= i < |b| ==> b[i] != '/'
    requires forall i :: 0 <= i < |c| ==> c[i] != '/'
    requires forall i :: 0 <= i < |d| ==> d[i] != '/'
    ensures SectionFrom("/" + a + "/" + b + "/" + c + "/" + d + "/" + name, '/', 5) == name
  {
    var s4 := d + "/" + name;
    var s3 := c + "/" + s4;
    var s2 := b + "/" + s3;
    var s1 := a + "/" + s2;
    var s0 := "/" + a + "/" + b + "/" + c + "/" + d + "/" + name;
    assert s0 == "" + "/" + s1;
    SectionSkipsField(s0, "", s1, '/', 4);
    SectionSkipsField(s1, a, s2, '/', 3);
    SectionSkipsField(s2, b, s3, '/', 2);
    SectionSkipsField(s3, c, s4, '/', 1);
    SectionAfterFirstField(s4, d, name, '/');
  }

  /** The backing path of a block device object is the device node of the same name. */
  lemma BackingPathOfBlockDevice(name: string)
    ensures CryptoBackingDevicePathOf(BlockDevicesPrefix + name) == "/dev/" + name
  {
    SectionAfterFiveFields("org", "freedesktop", "UDisks2", "block_devices", name);
  }

  /**
   * `Block::connectionBus` on the drive's `ConnectionBus` and the block's
   * backing object path: an unlocked crypto block has no drive of its own, so
   * its bus is guessed from the backing device node.
   */
  function GuessConnectionBus(driveBus: string, backingObjectPath: string): (r: string)
    ensures driveBus == "/" || !HasBackingDevice(backingObjectPath) ==> r == driveBus
    ensures driveBus != "/" && HasBackingDevice(backingObjectPath) ==> r in {"sdio", "usb", "ieee1394"}
  {
    if driveBus != "/" && HasBackingDevice(backingObjectPath) then
      var backingPath := CryptoBackingDevicePathOf(backingObjectPath);
      if Contains(backingPath, "mmcblk") then "sdio"
      else if StartsWith(backingPath, "/dev/sd") then "usb"
      else "ieee1394"
    else driveBus
  }

  /** A leading character that cannot start `needle` does not change whether `needle` occurs. */
  lemma ContainsSkip(x: char, rest: string, needle: string)
    requires needle != [] && x != needle[0]
    ensures Contains([x] + rest, needle) <==> Contains(rest, needle)
  {
    assert ([x] + rest)[1..] == rest;
  }

  /** `mmcblk` occurs in `/dev/<name>` exactly when it occurs in the name. */
  lemma DevNodeContainsMmc(name: string)
    ensures Contains("/dev/" + name, "mmcblk") <==> Contains(name, "mmcblk")
  {
    assert "/dev/" + name == ['/'] + (['d'] + (['e'] + (['v'] + (['/'] + name))));
    ContainsSkip('/', ['d'] + (['e'] + (['v'] + (['/'] + name))), "mmcblk");
    ContainsSkip('d', ['e'] + (['v'] + (['/'] + name)), "mmcblk");
    ContainsSkip('e', ['v'] + (['/'] + name), "mmcblk");
    ContainsSkip('v', ['/'] + name, "mmcblk");
    ContainsSkip('/', name, "mmcblk");
  }

  /** `/dev/<name>` starts with `/dev/sd` exactly when the name starts with `sd`. */
  lemma DevNodeStartsWithSd(name: string)
    ensures StartsWith("/dev/" + name, "/dev/sd") <==> StartsWith(name, "sd")
  {
    if |name| >= 2 {
      var head := ("/dev/" + name)[..7];
      assert head == "/dev/" + name[..2];
      assert head[5..] == name[..2];
    }
  }

  /**
   * The bus guessed for a block whose backing device is the block device
   * object `name`: `sdio` for an MMC card, `usb` for a SCSI disk, otherwise
   * `ieee1394`.
   */
  lemma ConnectionBusOfBlockDevice(driveBus: string, name: string)
    requires driveBus != "/"
    ensures GuessConnectionBus(driveBus, BlockDevicesPrefix + name) ==
      if Contains(name, "mmcblk") then "sdio"
      else if StartsWith(name, "sd") then "usb"
      else "ieee1394"
  {
    BackingPathOfBlockDevice(name);
    DevNodeContainsMmc(name);
    DevNodeStartsWithSd(name);
  }

  /** `Block::isExternal` on the preferred device name. */
  predicate IsExternalDevice(preferredDevice: string)
    ensures IsExternalDevice(preferredDevice) <==>
      preferredDevice != "/dev/sailfish/home" && preferredDevice != "/dev/sailfish/root"
  {
    preferredDevice !in InternalDevices
  }

  /** The `MountPoints` list of a filesystem property map, empty when absent. */
  function MountPoints(properties: PropertyMap): (r: seq<string>)
    ensures "MountPoints" !in properties ==> r == []
    ensures "MountPoints" in properties && properties["MountPoints"].VStrings? ==> r == properties["MountPoints"].l
  {
    if "MountPoints" in properties && properties["MountPoints"].VStrings? then properties["MountPoints"].l else []
  }

  /** The mount path `updateMountPoint` picks: the first mount point under `/run`, or empty. */
  function RunMountPath(points: seq<string>): (r: string)
    ensures r == "" <==> forall j :: 0 <= j < |points| ==> !StartsWith(points[j], "/run")
    ensures r != "" ==> StartsWith(r, "/run")
    ensures r != "" ==> exists k :: (0 <= k < |points| && points[k] == r &&
      forall j :: 0 <= j < k ==> !StartsWith(points[j], "/run"))
  {
    if points == [] then ""
    else if StartsWith(points[0], "/run") then points[0]
    else
      var r := RunMountPath(points[1..]);
      assert forall j :: 1 <= j < |points| ==> points[j] == points[1..][j - 1];
      r
  }

  class Block {
    /** The UDisks2 object path. */
    var path: string
    /** Properties of each interface the object was announced with. */
    var interfaces: InterfacePropertyMap
    /** Properties of the block interface. */
    var data: PropertyMap
    /** Properties of the drive the block belongs to. */
    var drive: PropertyMap
    var mountPath: string
    var mountable: bool
    var encrypted: bool
    var formatting: bool
    var locking: bool
    /** One flag per `GetAll` request in flight. */
    var pendingFileSystem: bool
    var pendingBlock: bool
    var pendingEncrypted: bool
    var pendingDrive: bool

    /** The drive request is issued only once the block properties are known. */
    ghost predicate Valid()
      reads this
    {
      !(pendingBlock && pendingDrive)
    }

    /**
     * A block for `objectPath`. Without block properties it asks for the
     * block, filesystem and encrypted properties; with them it takes the
     * mount path from the filesystem properties and asks for the drive.
     */
    constructor(objectPath: string, interfacePropertyMap: InterfacePropertyMap)
      ensures Valid()
      ensures path == objectPath && interfaces == interfacePropertyMap
      ensures data == (if BlockInterface in interfacePropertyMap then interfacePropertyMap[BlockInterface] else map[])
      ensures drive == map[] && !formatting && !locking
      ensures mountable == (FilesystemInterface in interfacePropertyMap)
      ensures encrypted == (EncryptedInterface in interfacePropertyMap)
      ensures data == map[] ==> pendingFileSystem && pendingBlock && pendingEncrypted && !pendingDrive && mountPath == ""
      ensures data != map[] ==> !pendingFileSystem && !pendingBlock && !pendingEncrypted && pendingDrive
      ensures data != map[] ==> (mountPath ==
        if FilesystemInterface in interfacePropertyMap then RunMountPath(MountPoints(interfacePropertyMap[FilesystemInterface])) else "")
    {
      path, interfaces := objectPath, interfacePropertyMap;
      data := if BlockInterface in interfacePropertyMap then interfacePropertyMap[BlockInterface] else map[];
      drive, mountPath := map[], "";
      mountable, encrypted := FilesystemInterface in interfacePropertyMap, EncryptedInterface in interfacePropertyMap;
      formatting, locking := false, false;
      pendingFileSystem, pendingBlock, pendingEncrypted, pendingDrive := false, false, false, false;
      new;
      if data == map[] {
        pendingFileSystem, pendingEncrypted, pendingBlock := true, true, true;
      } else {
        if mountable {
          UpdateMountPoint(interfacePropertyMap[FilesystemInterface]);
        }
        GetDriveProperties();
        Complete();
      }
    }

    /** `isCompleted`: no request is pending. */
    predicate IsCompleted()
      reads this
    {
      !pendingFileSystem && !pendingBlock && !pendingEncrypted && !pendingDrive
    }

    /** `value(key).toString()` on the block properties. */
    function Value(key: string): string
      reads this
    {
      StringValue(data, key)
    }

    function CryptoBackingDeviceObjectPath(): string
      reads this
    {
      Value(CryptoBackingDeviceKey)
    }

    /** `hasCryptoBackingDevice`: exactly when there is a backing device node path. */
    predicate HasCryptoBackingDevice()
      reads this
      ensures HasCryptoBackingDevice() <==> CryptoBackingDevicePath() != ""
    {
      HasBackingDevice(CryptoBackingDeviceObjectPath())
    }

    /** `cryptoBackingDevicePath`: the `/dev/` node of the backing device, or empty. */
    function CryptoBackingDevicePath(): (r: string)
      reads this
      ensures r != "" ==> StartsWith(r, "/dev/")
      ensures CryptoBackingDeviceObjectPath() == "/" ==> r == ""
    {
      CryptoBackingDevicePathOf(CryptoBackingDeviceObjectPath())
    }

    /** `isCryptoBlock`: encrypted itself, or an unlocked block on an encrypted device. */
    predicate IsCryptoBlock()
      reads this
      ensures IsCryptoBlock() <==> encrypted || CryptoBackingDevicePath() != ""
    {
      encrypted || HasCryptoBackingDevice()
    }

    /** `connectionBus`: the drive's bus, or a guess from the backing device of an unlocked crypto block. */
    function ConnectionBus(): (r: string)
      reads this
      ensures !HasCryptoBackingDevice() ==> r == StringValue(drive, "ConnectionBus")
      ensures HasCryptoBackingDevice() && StringValue(drive, "ConnectionBus") != "/" ==> r in {"sdio", "usb", "ieee1394"}
    {
      GuessConnectionBus(StringValue(drive, "ConnectionBus"), CryptoBackingDeviceObjectPath())
    }

    /** `isExternal`: the preferred device is neither the home nor the root partition. */
    predicate IsExternal()
      reads this
      ensures IsExternal() <==> Value("PreferredDevice") !in {"/dev/sailfish/home", "/dev/sailfish/root"}
    {
      IsExternalDevice(Value("PreferredDevice"))
    }

    /** `isValid`: the object carries the block interface. */
    predicate IsValid()
      reads this
    {
      BlockInterface in interfaces
    }

    predicate HasData()
      reads this
    {
      data != map[]
    }

    method SetEncrypted(value: bool) returns (changed: bool)
      modifies this
      ensures changed == (old(encrypted) != value)
      ensures encrypted == value
      ensures unchanged(this`path, this`interfaces, this`data, this`drive)
      ensures unchanged(this`mountPath, this`mountable, this`formatting, this`locking)
      ensures unchanged(this`pendingFileSystem, this`pendingBlock, this`pendingEncrypted, this`pendingDrive)
    {
      changed := encrypted != value;
      if changed {
        encrypted := value;
      }
    }

    method SetMountable(value: bool) returns (changed: bool)
      modifies this
      ensures changed == (old(mountable) != value)
      ensures mountable == value
      ensures unchanged(this`path, this`interfaces, this`data, this`drive)
      ensures unchanged(this`mountPath, this`encrypted, this`formatting, this`locking)
      ensures unchanged(this`pendingFileSystem, this`pendingBlock, this`pendingEncrypted, this`pendingDrive)
    {
      changed := mountable != value;
      if changed {
        mountable := value;
      }
    }

    method SetFormatting(value: bool) returns (changed: bool)
      modifies this
      ensures changed == (old(formatting) != value)
      ensures formatting == value
      ensures unchanged(this`path, this`interfaces, this`data, this`drive)
      ensures unchanged(this`mountPath, this`mountable, this`encrypted, this`locking)
      ensures unchanged(this`pendingFileSystem, this`pendingBlock, this`pendingEncrypted, this`pendingDrive)
    {
      changed := formatting != value;
      if changed {
        formatting := value;
      }
    }

    method SetLocking()
      modifies this
      ensures locking
      ensures unchanged(this`path, this`interfaces, this`data, this`drive)
      ensures unchanged(this`mountPath, this`mountable, this`encrypted, this`formatting)
      ensures unchanged(this`pendingFileSystem, this`pendingBlock, this`pendingEncrypted, this`pendingDrive)
    {
      locking := true;
    }

    /**
     * `clearFormattingState`: a completed, mountable block stops formatting;
     * the result says whether the mark was cleared.
     */
    method ClearFormattingState() returns (cleared: bool)
      modifies this
      ensures cleared == (old(formatting) && old(IsCompleted()) && old(mountable))
      ensures formatting == (old(formatting) && !cleared)
      ensures unchanged(this`path, this`interfaces, this`data, this`drive)
      ensures unchanged(this`mountPath, this`mountable, this`encrypted, this`locking)
      ensures unchanged(this`pendingFileSystem, this`pendingBlock, this`pendingEncrypted, this`pendingDrive)
    {
      if IsCompleted() && mountable && formatting {
        cleared := SetFormatting(false);
      } else {
        cleared := false;
      }
    }

    /** `complete` and its `completed` handler: once nothing is pending the formatting mark is cleared. */
    method Complete()
      modifies this
      ensures IsCompleted() && mountable ==> !formatting
      ensures formatting == (old(formatting) && !(IsCompleted() && mountable))
      ensures unchanged(this`path, this`interfaces, this`data, this`drive)
      ensures unchanged(this`mountPath, this`mountable, this`encrypted, this`locking)
      ensures unchanged(this`pendingFileSystem, this`pendingBlock, this`pendingEncrypted, this`pendingDrive)
    {
      if IsCompleted() {
        var _ := ClearFormattingState();
      }
    }

    /** The first loop of `updateMountPoint`: the first mount point under `/run`, or empty. */
    method SelectMountPath(points: seq<string>)
      modifies this
      ensures mountPath == RunMountPath(points)
      ensures unchanged(this`path, this`interfaces, this`data, this`drive)
      ensures unchanged(this`mountable, this`encrypted, this`formatting, this`locking)
      ensures unchanged(this`pendingFileSystem, this`pendingBlock, this`pendingEncrypted, this`pendingDrive)
    {
      mountPath := "";
      var i := 0;
      while i < |points|
        invariant 0 <= i <= |points|
        invariant mountPath == "" && RunMountPath(points[i..]) == RunMountPath(points)
        invariant unchanged(this`path, this`interfaces, this`data, this`drive)
        invariant unchanged(this`mountable, this`encrypted, this`formatting, this`locking)
        invariant unchanged(this`pendingFileSystem, this`pendingBlock, this`pendingEncrypted, this`pendingDrive)
      {
        if StartsWith(points[i], "/run") {
          mountPath := points[i];
          break;
        }
        assert points[i..][1..] == points[i + 1..];
        i := i + 1;
      }
    }

    /**
     * `updateMountPoint`: the mount path becomes the first mount point under
     * `/run`, or empty, and the block becomes mountable.
     */
    method UpdateMountPoint(properties: PropertyMap)
      modifies this
      ensures mountPath == RunMountPath(MountPoints(properties))
      ensures mountable
      ensures formatting == (old(formatting) && !old(IsCompleted()))
      ensures IsCompleted() ==> !formatting
      ensures unchanged(this`path, this`interfaces, this`data, this`drive)
      ensures unchanged(this`encrypted, this`locking, this`pendingFileSystem, this`pendingBlock)
      ensures unchanged(this`pendingEncrypted, this`pendingDrive)
    {
      SelectMountPath(MountPoints(properties));
      var _ := SetMountable(true);
      var _ := ClearFormattingState();
    }

    /** Issue the drive's `GetAll`. */
    method GetDriveProperties()
      modifies this
      ensures pendingDrive
      ensures unchanged(this`path, this`interfaces, this`data, this`drive)
      ensures unchanged(this`mountPath, this`mountable, this`encrypted, this`formatting)
      ensures unchanged(this`locking, this`pendingFileSystem, this`pendingBlock, this`pendingEncrypted)
    {
      pendingDrive := true;
    }

    /** The reply to the filesystem `GetAll`: a failure leaves the block unmountable. */
    method FileSystemReplied(success: bool, properties: PropertyMap)
      requires Valid() && pendingFileSystem
      modifies this
      ensures Valid() && !pendingFileSystem
      ensures mountable == success
      ensures mountPath == if success then RunMountPath(MountPoints(properties)) else old(mountPath)
      ensures formatting == (old(formatting) && !(IsCompleted() && success))
      ensures unchanged(this`path, this`interfaces, this`data, this`drive)
      ensures unchanged(this`encrypted, this`locking, this`pendingBlock, this`pendingEncrypted)
      ensures unchanged(this`pendingDrive)
    {
      if success {
        UpdateMountPoint(properties);
      } else {
        mountable := false;
      }
      pendingFileSystem := false;
      Complete();
    }

    /** The reply to the encrypted `GetAll`: the block is encrypted exactly when it succeeded. */
    method EncryptedReplied(success: bool)
      requires Valid() && pendingEncrypted
      modifies this
      ensures Valid() && !pendingEncrypted
      ensures encrypted == success
      ensures formatting == (old(formatting) && !(IsCompleted() && mountable))
      ensures unchanged(this`path, this`interfaces, this`data, this`drive)
      ensures unchanged(this`mountPath, this`mountable, this`locking, this`pendingFileSystem)
      ensures unchanged(this`pendingBlock, this`pendingDrive)
    {
      encrypted, pendingEncrypted := success, false;
      Complete();
    }

    /** The reply to the block `GetAll`: on success the properties are taken and the drive is asked for. */
    method BlockReplied(success: bool, properties: PropertyMap)
      requires Valid() && pendingBlock
      modifies this
      ensures Valid() && !pendingBlock
      ensures pendingDrive == success
      ensures data == if success then properties else old(data)
      ensures formatting == (old(formatting) && !(IsCompleted() && mountable))
      ensures unchanged(this`path, this`interfaces, this`drive, this`mountPath)
      ensures unchanged(this`mountable, this`encrypted, this`locking, this`pendingFileSystem)
      ensures unchanged(this`pendingEncrypted)
    {
      if success {
        data := properties;
        GetDriveProperties();
      }
      pendingBlock := false;
      Complete();
    }

    /** The reply to the drive `GetAll`: a failure empties the drive properties. */
    method DriveReplied(success: bool, properties: PropertyMap)
      requires Valid() && pendingDrive
      modifies this
      ensures Valid() && !pendingDrive
      ensures drive == if success then properties else map[]
      ensures formatting == (old(formatting) && !(IsCompleted() && mountable))
      ensures unchanged(this`path, this`interfaces, this`data, this`mountPath)
      ensures unchanged(this`mountable, this`encrypted, this`locking, this`pendingFileSystem)
      ensures unchanged(this`pendingBlock, this`pendingEncrypted)
    {
      drive, pendingDrive := if success then properties else map[], false;
      Complete();
    }

    /** `addInterface`: record the properties; a filesystem makes the block mountable, an encrypted interface encrypted. */
    method AddInterface(iface: string, properties: PropertyMap)
      modifies this
      ensures interfaces == old(interfaces)[iface := properties]
      ensures mountable == (old(mountable) || iface == FilesystemInterface)
      ensures encrypted == (old(encrypted) || iface == EncryptedInterface)
      ensures unchanged(this`path, this`data, this`drive, this`mountPath)
      ensures unchanged(this`formatting, this`locking, this`pendingFileSystem, this`pendingBlock)
      ensures unchanged(this`pendingEncrypted, this`pendingDrive)
    {
      interfaces := interfaces[iface := properties];
      if iface == FilesystemInterface {
        var _ := SetMountable(true);
      } else if iface == EncryptedInterface {
        var _ := SetEncrypted(true);
      }
    }

    /**
     * `removeInterface`: forget the properties; losing the block or drive
     * interface empties the matching properties, losing the filesystem or
     * encrypted interface clears the matching flag.
     */
    method RemoveInterface(iface: string)
      modifies this
      ensures interfaces == old(interfaces) - {iface}
      ensures data == if iface == BlockInterface then map[] else old(data)
      ensures drive == if iface == DriveInterface then map[] else old(drive)
      ensures mountable == (old(mountable) && iface != FilesystemInterface)
      ensures encrypted == (old(encrypted) && iface != EncryptedInterface)
      ensures unchanged(this`path, this`mountPath, this`formatting, this`locking)
      ensures unchanged(this`pendingFileSystem, this`pendingBlock, this`pendingEncrypted, this`pendingDrive)
    {
      interfaces := interfaces - {iface};
      if iface == BlockInterface {
        data := map[];
      } else if iface == DriveInterface {
        drive := map[];
      } else if iface == FilesystemInterface {
        var _ := SetMountable(false);
      } else if iface == EncryptedInterface {
        var _ := SetEncrypted(false);
      }
    }

    /** Write the changed block properties into `data`, key by key in map order. */
    method MergeChanged(changed: PropertyMap)
      modifies this
      ensures data == old(data) + changed
      ensures unchanged(this`path, this`interfaces, this`drive, this`mountPath)
      ensures unchanged(this`mountable, this`encrypted, this`formatting, this`locking)
      ensures unchanged(this`pendingFileSystem, this`pendingBlock, this`pendingEncrypted, this`pendingDrive)
    {
      var keys := SortedKeys(changed.Keys);
      var j := 0;
      while j < |keys|
        invariant 0 <= j <= |keys|
        invariant data == Overwrite(old(data), changed, keys[..j])
        invariant unchanged(this`path, this`interfaces, this`drive, this`mountPath)
        invariant unchanged(this`mountable, this`encrypted, this`formatting, this`locking)
        invariant unchanged(this`pendingFileSystem, this`pendingBlock, this`pendingEncrypted, this`pendingDrive)
      {
        OverwriteStep(old(data), changed, keys, j);
        data := data[keys[j] := changed[keys[j]]];
        j := j + 1;
      }
      assert keys[..j] == keys;
      OverwriteAll(old(data), changed, keys);
    }

    /**
     * `updateProperties` for a `PropertiesChanged` signal on the block
     * interface: the changed properties are merged in and a completed,
     * mountable block stops formatting.
     */
    method BlockPropertiesChanged(changed: PropertyMap)
      modifies this
      ensures data == old(data) + changed
      ensures formatting == (old(formatting) && !(old(IsCompleted()) && old(mountable)))
      ensures "PreferredDevice" !in changed ==> IsExternal() == old(IsExternal())
      ensures unchanged(this`path, this`interfaces, this`drive, this`mountPath)
      ensures unchanged(this`mountable, this`encrypted, this`locking, this`pendingFileSystem)
      ensures unchanged(this`pendingBlock, this`pendingEncrypted, this`pendingDrive)
    {
      MergeChanged(changed);
      var _ := ClearFormattingState();
    }

    /**
     * `updateProperties`: changed block properties are merged in, changed
     * filesystem properties give a new mount path; other interfaces are
     * ignored.
     */
    method UpdateProperties(iface: string, changed: PropertyMap)
      modifies this
      ensures iface == BlockInterface ==> data == old(data) + changed
      ensures iface == BlockInterface ==> formatting == (old(formatting) && !(old(IsCompleted()) && old(mountable)))
      ensures iface == FilesystemInterface ==> mountPath == RunMountPath(MountPoints(changed)) && mountable
      ensures iface == FilesystemInterface ==> formatting == (old(formatting) && !old(IsCompleted()))
      ensures iface != BlockInterface ==> data == old(data)
      ensures iface != FilesystemInterface ==> mountPath == old(mountPath) && mountable == old(mountable)
      ensures iface != BlockInterface && iface != FilesystemInterface ==> formatting == old(formatting)
      ensures unchanged(this`path, this`interfaces, this`drive, this`encrypted)
      ensures unchanged(this`locking, this`pendingFileSystem, this`pendingBlock, this`pendingEncrypted)
      ensures unchanged(this`pendingDrive)
    {
      if iface == BlockInterface {
        InterfacesDistinct();
        BlockPropertiesChanged(changed);
      } else if iface == FilesystemInterface {
        UpdateMountPoint(changed);
      }
    }

    /** The field copy of `morph` for the properties and the mount path. */
    method TakeProperties(other: Block)
      requires other != this
      modifies this
      ensures path == other.path && interfaces == other.interfaces && data == other.data
      ensures drive == other.drive && mountPath == other.mountPath
      ensures unchanged(this`mountable, this`encrypted, this`formatting, this`locking)
      ensures unchanged(this`pendingFileSystem, this`pendingBlock, this`pendingEncrypted, this`pendingDrive)
    {
      path, interfaces, data, drive, mountPath := other.path, other.interfaces, other.data, other.drive, other.mountPath;
    }

    /** The field copy of `morph` for the flags. */
    method TakeFlags(other: Block)
      requires other != this
      modifies this
      ensures mountable == other.mountable && encrypted == other.encrypted
      ensures formatting == other.formatting && locking == other.locking
      ensures unchanged(this`path, this`interfaces, this`data, this`drive)
      ensures unchanged(this`mountPath, this`pendingFileSystem, this`pendingBlock, this`pendingEncrypted)
      ensures unchanged(this`pendingDrive)
    {
      mountable, encrypted, formatting, locking := other.mountable, other.encrypted, other.formatting, other.locking;
    }

    /**
     * `morph`: take over every field of `other` except the pending requests.
     * The result is the backing object path to rescan when a formatting block
     * turns out to sit on a backing device.
     */
    method Morph(other: Block) returns (rescan: Option<string>)
      modifies this
      ensures other == this ==> rescan == None && unchanged(this)
      ensures other != this ==> path == old(other.path) && interfaces == old(other.interfaces) && data == old(other.data)
      ensures other != this ==> drive == old(other.drive) && mountPath == old(other.mountPath)
      ensures other != this ==> mountable == old(other.mountable) && encrypted == old(other.encrypted)
      ensures other != this ==> formatting == old(other.formatting) && locking == old(other.locking)
      ensures other != this ==> rescan == if old(formatting) && HasCryptoBackingDevice()
        then Some(CryptoBackingDeviceObjectPath()) else None
      ensures unchanged(this`pendingFileSystem, this`pendingBlock, this`pendingEncrypted, this`pendingDrive)
    {
      if other == this {
        return None;
      }
      var wasFormatting := formatting;
      TakeProperties(other);
      TakeFlags(other);
      rescan := if wasFormatting && HasCryptoBackingDevice() then Some(CryptoBackingDeviceObjectPath()) else None;
    }
  }
}
