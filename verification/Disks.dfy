/** How disks are attached (lib/libktest.sh qemu_disk, qemu_pmem, start_vm): disk
    numbers, PCI bridges and slots, and the lists handed to the guest. */
module Disks {
  import opened Text
  import opened FieldList

  datatype Bus = VirtioBlk | Ide | Scsi     // Ide: ahci and piix4-ide; Scsi: any other

  const SLOTS := 31

  function Bridge(nr: nat): nat
    requires nr > 0
  {
    (nr - 1) / SLOTS
  }

  function Slot(nr: nat): nat
    requires nr > 0
  {
    (nr - 1) % SLOTS + 1
  }

  /** `printf %x`. */
  function Hex(n: nat): string {
    if n < 16 then [HexDigit(n)] else Hex(n / 16) + [HexDigit(n % 16)]
  }

  function HexDigit(d: nat): char
    requires d < 16
  {
    if d < 10 then ('0' as int + d) as char else ('a' as int + (d - 10)) as char
  }

  // --- the arguments of one disk, under given ids ---

  function DriveSpec(id: string, arg: string): string {
    "if=none,format=raw," + ("id=" + id + ",") + arg
  }

  /** Where on its bus the disk sits. */
  function Place(bus: Bus, nr: nat): string
    requires nr > 0
  {
    match bus
    case VirtioBlk => "bus=pci.blk" + Decimal(Bridge(nr)) + ",addr=0x" + Hex(Slot(nr)) + ","
    case Ide => "bus=hba." + Decimal(nr - 1) + ","
    case Scsi => "bus=hba.0,"
  }

  function Head(bus: Bus, nr: nat): string
    requires nr > 0
  {
    match bus
    case VirtioBlk => "virtio-blk-pci,"
    case Ide => "ide-hd," + Place(bus, nr)
    case Scsi => "scsi-hd," + Place(bus, nr)
  }

  function Middle(bus: Bus, nr: nat): string
    requires nr > 0
  {
    if bus.VirtioBlk? then Place(bus, nr) else ""
  }

  function DeviceSpec(bus: Bus, nr: nat, disk: string, dev: string): string {
    if nr == 0 then "virtio-blk-pci,drive=" + disk + ",id=" + dev
    else Head(bus, nr) + ("drive=" + disk + ",") + (Middle(bus, nr) + ("id=" + dev))
  }

  /** The device of disk nr as it is spelled, bus by bus. */
  function DeviceText(bus: Bus, nr: nat): string {
    var n := Decimal(nr);
    if nr == 0 then "virtio-blk-pci,drive=disk0,id=dev0"
    else
      match bus
      case VirtioBlk =>
        "virtio-blk-pci,drive=disk" + n + ",bus=pci.blk" + Decimal((nr - 1) / 31)
        + ",addr=0x" + Hex((nr - 1) % 31 + 1) + ",id=dev" + n
      case Ide => "ide-hd,bus=hba." + Decimal(nr - 1) + ",drive=disk" + n + ",id=dev" + n
      case Scsi => "scsi-hd,bus=hba.0,drive=disk" + n + ",id=dev" + n
  }

  lemma Seam(x: string, y: string, z: string)
    ensures x + (y + z) == x + y + z
  {
  }

  lemma DriveIs(nr: nat, arg: string)
    ensures DriveSpec(DiskId(nr), arg) == "if=none,format=raw,id=disk" + Decimal(nr) + "," + arg
  {
    hide Decimal;
    DriveSeams("if=none,format=raw,", "id=", "disk", Decimal(nr), ",", arg);
    assert "if=none,format=raw," + ("id=" + "disk") == "if=none,format=raw,id=disk";
  }

  lemma DriveSeams(p: string, q: string, r: string, n: string, c: string, arg: string)
    ensures p + (q + (r + n) + c) + arg == p + (q + r) + n + c + arg
  {
    Seam(q, r, n);
    Seam(p, q + r + n, c);
    Seam(p, q + r, n);
  }

  lemma DeviceSeams(p: string, q: string, r: string, n: string, c: string, x: string, id: string, dev: string)
    ensures p + (q + (r + n) + c) + (x + (id + (dev + n))) == p + (q + r) + n + (c + x) + (id + dev) + n
  {
    DriveSeams(p, q, r, n, c, x + (id + (dev + n)));
    Seam(id, dev, n);
    var head := p + (q + r) + n;
    Seam(head + c, x, id + dev + n);
    Seam(head + c + x, id + dev, n);
    Seam(head, c, x);
  }

  lemma DeviceIs(bus: Bus, nr: nat)
    ensures DeviceSpec(bus, nr, DiskId(nr), DevId(nr)) == DeviceText(bus, nr)
  {
    hide Decimal, Hex;
    if nr == 0 {
      DecimalZero();
      assert DiskId(0) == "disk0" && DevId(0) == "dev0";
      assert "virtio-blk-pci,drive=" + "disk0" + ",id=" + "dev0" == "virtio-blk-pci,drive=disk0,id=dev0";
    } else if bus.VirtioBlk? {
      VirtioIs(nr);
    } else {
      OtherIs(bus, nr);
    }
  }

  lemma OtherIs(bus: Bus, nr: nat)
    requires nr > 0 && !bus.VirtioBlk?
    ensures DeviceSpec(bus, nr, DiskId(nr), DevId(nr)) == DeviceText(bus, nr)
  {
    hide Decimal, Hex;
    var n, head := Decimal(nr), Head(bus, nr);
    DeviceSeams(head, "drive=", "disk", n, ",", "", "id=", "dev");
    assert "drive=" + "disk" == "drive=disk" && "," + "" == "," && "id=" + "dev" == "id=dev";
    assert DeviceSpec(bus, nr, DiskId(nr), DevId(nr)) == head + "drive=disk" + n + "," + "id=dev" + n;
    Seam(head + "drive=disk" + n, ",", "id=dev");
    assert "," + "id=dev" == ",id=dev";
    if bus.Ide? {
      var m := Decimal(nr - 1);
      Seam("ide-hd,", "bus=hba." + m, ",");
      Seam("ide-hd,", "bus=hba.", m);
      assert "ide-hd," + "bus=hba." == "ide-hd,bus=hba.";
      Seam("ide-hd,bus=hba." + m, ",", "drive=disk");
      assert "," + "drive=disk" == ",drive=disk";
    } else {
      assert head + "drive=disk" == "scsi-hd,bus=hba.0,drive=disk";
    }
  }

  lemma VirtioIs(nr: nat)
    requires nr > 0
    ensures DeviceSpec(VirtioBlk, nr, DiskId(nr), DevId(nr)) == DeviceText(VirtioBlk, nr)
  {
    hide Decimal, Hex;
    var n, b, h := Decimal(nr), Decimal((nr - 1) / 31), Hex((nr - 1) % 31 + 1);
    var at := "bus=pci.blk" + b + ",addr=0x" + h;
    DeviceSeams("virtio-blk-pci,", "drive=", "disk", n, ",", at + ",", "id=", "dev");
    assert "virtio-blk-pci," + ("drive=" + "disk") == "virtio-blk-pci,drive=disk" && "id=" + "dev" == "id=dev";
    var head := "virtio-blk-pci,drive=disk" + n;
    assert DeviceSpec(VirtioBlk, nr, DiskId(nr), DevId(nr)) == head + ("," + (at + ",")) + "id=dev" + n;
    PlaceSeams(head, ",", "bus=pci.blk", b, ",addr=0x", h, "id=dev");
    assert "," + "bus=pci.blk" == ",bus=pci.blk" && "," + "id=dev" == ",id=dev";
  }

  lemma PlaceSeams(head: string, c: string, x: string, b: string, y: string, h: string, id: string)
    ensures head + (c + (x + b + y + h + c)) + id == head + (c + x) + b + y + h + (c + id)
  {
    var at := x + b + y + h;
    Seam(head, c, at + c);
    Seam(head + c, at, c);
    Seam(head + c, x + b + y, h);
    Seam(head + c, x + b, y);
    Seam(head + c, x, b);
    Seam(head, c, x);
    Seam(head + c + at, c, id);
  }

  lemma PmemIs(nr: nat)
    ensures PmemSpec(nr) == "nvdimm,memdev=mem" + Decimal(nr) + ",id=nv" + Decimal(nr) + ",label-size=2M"
  {
  }

  lemma DecimalZero()
    ensures Decimal(0) == "0"
  {
  }

  function DiskId(nr: nat): string { "disk" + Decimal(nr) }

  function DevId(nr: nat): string { "dev" + Decimal(nr) }

  function PmemSpec(nr: nat): string {
    "nvdimm,memdev=mem" + Decimal(nr) + ",id=nv" + Decimal(nr) + ",label-size=2M"
  }

  // --- the command line ---

  datatype Arg =
    | RootPort(br: nat, slot: nat, chassis: nat)
    | PciBridge(br: nat)
    | Drive(spec: string)
    | Disk(nr: nat, spec: string)
    | Memory(nr: nat, arg: string)
    | Nvdimm(spec: string)

  /** The port a bridge hangs off. */
  function PortOf(br: nat): Arg {
    RootPort(br, 8 + br, 8 + br)
  }

  datatype Call = QemuDisk(arg: string) | QemuPmem(arg: string)

  predicate OpensBridge(bus: Bus, nr: nat) {
    bus.VirtioBlk? && nr > 0 && (nr - 1) % SLOTS == 0
  }

  function ArgsOf(bus: Bus, nr: nat, call: Call): seq<Arg> {
    match call
    case QemuDisk(arg) =>
      (if OpensBridge(bus, nr) then [PortOf(Bridge(nr)), PciBridge(Bridge(nr))] else [])
      + [Drive(DriveSpec(DiskId(nr), arg)), Disk(nr, DeviceSpec(bus, nr, DiskId(nr), DevId(nr)))]
    case QemuPmem(arg) => [Memory(nr, arg), Nvdimm(PmemSpec(nr))]
  }

  function DriveField(nr: nat, call: Call): string {
    if call.QemuDisk? then DriveSpec(DiskId(nr), call.arg) else ""
  }

  function DeviceField(bus: Bus, nr: nat, call: Call): string {
    if call.QemuDisk? then DeviceSpec(bus, nr, DiskId(nr), DevId(nr)) else PmemSpec(nr)
  }

  function Args(bus: Bus, calls: seq<Call>): seq<Arg> {
    if calls == [] then []
    else Args(bus, calls[..|calls| - 1]) + ArgsOf(bus, |calls| - 1, calls[|calls| - 1])
  }

  function DriveFields(calls: seq<Call>): seq<string> {
    seq(|calls|, i requires 0 <= i < |calls| => DriveField(i, calls[i]))
  }

  function DeviceFields(bus: Bus, calls: seq<Call>): seq<string> {
    seq(|calls|, i requires 0 <= i < |calls| => DeviceField(bus, i, calls[i]))
  }

  lemma ListedOne(fields: seq<string>, last: string)
    ensures Listed(fields + [last]) == Append(Listed(fields), last)
  {
    assert (fields + [last])[..|fields|] == fields;
  }

  class StartVm {
    const bus: Bus
    var cmd: seq<Arg>
    var drives: string
    var devices: string
    var disknr: nat
    var scratchBase: nat

    /** Everything is what the calls made so far say. */
    ghost predicate After(calls: seq<Call>)
      reads this
    {
      && disknr == |calls| && cmd == Args(bus, calls)
      && drives == Listed(DriveFields(calls)) && devices == Listed(DeviceFields(bus, calls))
    }

    constructor (bus: Bus)
      ensures this.bus == bus && After([]) && scratchBase == 0
    {
      this.bus := bus;
      cmd, drives, devices, disknr, scratchBase := [], "", "", 0, 0;
    }

    /** lib/libktest.sh qemu_disk. */
    method AttachDisk(arg: string, ghost calls: seq<Call>)
      requires After(calls)
      modifies this`cmd, this`drives, this`devices, this`disknr
      ensures After(calls + [QemuDisk(arg)])
      ensures var nr, n := old(disknr), Decimal(old(disknr));
              var br := (nr - 1) / 31;
              && cmd == old(cmd)
                        + (if bus.VirtioBlk? && nr > 0 && (nr - 1) % 31 == 0
                           then [RootPort(br, 8 + br, 8 + br), PciBridge(br)] else [])
                        + [Drive("if=none,format=raw,id=disk" + n + "," + arg), Disk(nr, DeviceText(bus, nr))]
              && disknr == nr + 1
    {
      DriveIs(disknr, arg);
      DeviceIs(bus, disknr);
      hide DriveSpec, DeviceSpec, DiskId, DevId, PmemSpec, Listed, Append;
      Longer(bus, calls, QemuDisk(arg));
      var drive := DriveSpec(DiskId(disknr), arg);
      if bus.VirtioBlk? && disknr > 0 && (disknr - 1) % SLOTS == 0 {
        cmd := cmd + [PortOf(Bridge(disknr)), PciBridge(Bridge(disknr))];
      }
      var dev := DeviceSpec(bus, disknr, DiskId(disknr), DevId(disknr));
      cmd := cmd + [Drive(drive)];
      cmd := cmd + [Disk(disknr, dev)];
      assert cmd == Args(bus, calls) + ArgsOf(bus, |calls|, QemuDisk(arg));
      drives := Append(drives, drive);
      devices := Append(devices, dev);
      disknr := disknr + 1;
    }

    /** lib/libktest.sh qemu_pmem: no drive, but an empty field. */
    method AttachPmem(arg: string, ghost calls: seq<Call>)
      requires After(calls)
      modifies this`cmd, this`drives, this`devices, this`disknr
      ensures After(calls + [QemuPmem(arg)])
      ensures var nr, n := old(disknr), Decimal(old(disknr));
              && cmd == old(cmd) + [Memory(nr, arg), Nvdimm("nvdimm,memdev=mem" + n + ",id=nv" + n + ",label-size=2M")]
              && disknr == nr + 1
    {
      PmemIs(disknr);
      hide DriveSpec, DeviceSpec, DiskId, DevId, PmemSpec, Listed;
      Longer(bus, calls, QemuPmem(arg));
      var dev := PmemSpec(disknr);
      cmd := cmd + [Memory(disknr, arg)];
      cmd := cmd + [Nvdimm(dev)];
      assert cmd == Args(bus, calls) + ArgsOf(bus, |calls|, QemuPmem(arg));
      if drives != "" {
        drives := drives + [NL];
      }
      assert drives == Append(old(drives), "");
      devices := Append(devices, dev);
      disknr := disknr + 1;
    }

    method AttachDisks(args: seq<string>, ghost calls: seq<Call>)
      requires After(calls)
      modifies this`cmd, this`drives, this`devices, this`disknr
      ensures After(calls + AllDisks(args))
    {
      hide *;
      assert calls + AllDisks(args[..0]) == calls;
      for i := 0 to |args|
        invariant After(calls + AllDisks(args[..i]))
      {
        AttachDisk(args[i], calls + AllDisks(args[..i]));
        assert calls + AllDisks(args[..i + 1]) == calls + AllDisks(args[..i]) + [QemuDisk(args[i])];
      }
      assert args[..|args|] == args;
    }

    method AttachPmems(args: seq<string>, ghost calls: seq<Call>)
      requires After(calls)
      modifies this`cmd, this`drives, this`devices, this`disknr
      ensures After(calls + AllPmems(args))
    {
      hide *;
      assert calls + AllPmems(args[..0]) == calls;
      for i := 0 to |args|
        invariant After(calls + AllPmems(args[..i]))
      {
        AttachPmem(args[i], calls + AllPmems(args[..i]));
        assert calls + AllPmems(args[..i + 1]) == calls + AllPmems(args[..i]) + [QemuPmem(args[i])];
      }
      assert args[..|args|] == args;
    }

    /** The disk part of lib/libktest.sh start_vm. */
    method AttachAll(root: string, images: seq<string>, rwImages: seq<string>, scratch: seq<string>, slow: seq<string>,
                     pmem: seq<string>)
      requires After([])
      modifies this
      ensures After(VmCalls(root, images, rwImages, scratch, slow, pmem))
      ensures scratchBase == 1 + |images| + |rwImages|
    {
      hide Args, Listed, DriveFields, DeviceFields, AllDisks, AllPmems;
      ghost var calls := [QemuDisk(root)];
      AttachDisk(root, []);
      assert [] + [QemuDisk(root)] == calls;
      AttachDisks(images, calls);
      AttachDisks(rwImages, calls + AllDisks(images));
      scratchBase := disknr;
      calls := calls + AllDisks(images) + AllDisks(rwImages);
      AttachDisks(scratch, calls);
      AttachDisks(slow, calls + AllDisks(scratch));
      AttachPmems(pmem, calls + AllDisks(scratch) + AllDisks(slow));
    }
  }

  lemma Longer(bus: Bus, calls: seq<Call>, call: Call)
    ensures Args(bus, calls + [call]) == Args(bus, calls) + ArgsOf(bus, |calls|, call)
    ensures Listed(DriveFields(calls + [call])) == Append(Listed(DriveFields(calls)), DriveField(|calls|, call))
    ensures Listed(DeviceFields(bus, calls + [call])) ==
            Append(Listed(DeviceFields(bus, calls)), DeviceField(bus, |calls|, call))
  {
    hide DriveField, DeviceField, ArgsOf, Listed, Append;
    assert (calls + [call])[..|calls|] == calls;
    ListedOne(DriveFields(calls), DriveField(|calls|, call));
    assert DriveFields(calls + [call]) == DriveFields(calls) + [DriveField(|calls|, call)];
    ListedOne(DeviceFields(bus, calls), DeviceField(bus, |calls|, call));
    assert DeviceFields(bus, calls + [call]) == DeviceFields(bus, calls) + [DeviceField(bus, |calls|, call)];
  }

  function AllDisks(args: seq<string>): (r: seq<Call>)
    ensures |r| == |args| && forall i | 0 <= i < |args| :: r[i] == QemuDisk(args[i])
  {
    seq(|args|, i requires 0 <= i < |args| => QemuDisk(args[i]))
  }

  function AllPmems(args: seq<string>): (r: seq<Call>)
    ensures |r| == |args| && forall i | 0 <= i < |args| :: r[i] == QemuPmem(args[i])
  {
    seq(|args|, i requires 0 <= i < |args| => QemuPmem(args[i]))
  }

  function VmCalls(root: string, images: seq<string>, rwImages: seq<string>, scratch: seq<string>, slow: seq<string>,
                   pmem: seq<string>): seq<Call> {
    [QemuDisk(root)] + AllDisks(images) + AllDisks(rwImages) + AllDisks(scratch) + AllDisks(slow) + AllPmems(pmem)
  }

  // --- bridges ---

  predicate ReadyAt(cmd: seq<Arg>, i: nat)
    requires i < |cmd| && cmd[i].Disk? && cmd[i].nr > 0
  {
    exists j, k | 0 <= j < k < i :: cmd[j] == PortOf(Bridge(cmd[i].nr)) && cmd[k] == PciBridge(Bridge(cmd[i].nr))
  }

  /** Every disk on a bridge comes after that bridge, which comes after its port. */
  predicate BridgesReady(cmd: seq<Arg>) {
    forall i | 0 <= i < |cmd| && cmd[i].Disk? && cmd[i].nr > 0 :: ReadyAt(cmd, i)
  }

  /** No port and no bridge is asked for twice. */
  predicate BridgesOnce(cmd: seq<Arg>) {
    forall i, j | 0 <= i < j < |cmd| && (cmd[i].RootPort? || cmd[i].PciBridge?) :: cmd[i] != cmd[j]
  }

  function Opener(br: nat): nat { br * SLOTS + 1 }

  lemma OpenerIs(nr: nat)
    requires nr > 0
    ensures OpensBridge(VirtioBlk, nr) <==> nr == Opener(Bridge(nr))
    ensures Opener(Bridge(nr)) <= nr && Bridge(Opener(Bridge(nr))) == Bridge(nr)
    ensures 1 <= Slot(nr) <= 31 && nr == Bridge(nr) * SLOTS + Slot(nr)
  {
  }

  predicate Has(cmd: seq<Arg>, a: Arg) {
    a in cmd
  }

  lemma BridgeOpened(nr: nat, call: Call, br: nat)
    ensures Has(ArgsOf(VirtioBlk, nr, call), PciBridge(br)) <==> nr == Opener(br) && call.QemuDisk?
    ensures Has(ArgsOf(VirtioBlk, nr, call), PortOf(br)) <==> nr == Opener(br) && call.QemuDisk?
  {
    hide DriveSpec, DeviceSpec, PmemSpec, DiskId, DevId;
    if nr > 0 {
      OpenerIs(nr);
    }
    var b := ArgsOf(VirtioBlk, nr, call);
    if OpensBridge(VirtioBlk, nr) && call.QemuDisk? {
      assert b[0] == PortOf(Bridge(nr)) && b[1] == PciBridge(Bridge(nr)) && b[2].Drive? && b[3].Disk?;
    } else {
      assert forall i | 0 <= i < |b| :: !b[i].PciBridge? && !b[i].RootPort?;
    }
  }

  lemma HasAppend(a: seq<Arg>, b: seq<Arg>, x: Arg)
    ensures Has(a + b, x) <==> Has(a, x) || Has(b, x)
  {
  }

  /** Which bridges there are. */
  lemma {:induction false} BridgesAre(calls: seq<Call>, br: nat)
    ensures Has(Args(VirtioBlk, calls), PciBridge(br)) <==> Opener(br) < |calls| && calls[Opener(br)].QemuDisk?
    ensures Has(Args(VirtioBlk, calls), PortOf(br)) <==> Opener(br) < |calls| && calls[Opener(br)].QemuDisk?
  {
    hide ArgsOf, Opener;
    if calls != [] {
      var init, nr := calls[..|calls| - 1], |calls| - 1;
      BridgesAre(init, br);
      BridgeOpened(nr, calls[nr], br);
      HasAppend(Args(VirtioBlk, init), ArgsOf(VirtioBlk, nr, calls[nr]), PciBridge(br));
      HasAppend(Args(VirtioBlk, init), ArgsOf(VirtioBlk, nr, calls[nr]), PortOf(br));
    }
  }

  lemma {:induction false} EachBridgeOnce(calls: seq<Call>)
    ensures BridgesOnce(Args(VirtioBlk, calls))
  {
    hide DriveSpec, DeviceSpec, PmemSpec, DiskId, DevId, Has, Opener;
    if calls != [] {
      var init, nr := calls[..|calls| - 1], |calls| - 1;
      EachBridgeOnce(init);
      if OpensBridge(VirtioBlk, nr) {
        BridgesAre(init, Bridge(nr));
        OpenerIs(nr);
      }
      OnceAppend(Args(VirtioBlk, init), ArgsOf(VirtioBlk, nr, calls[nr]));
    }
  }

  /** No two ports on the command line share a slot number or a chassis. */
  lemma PortsApart(calls: seq<Call>, i: nat, j: nat)
    requires i < j < |Args(VirtioBlk, calls)|
    requires Args(VirtioBlk, calls)[i].RootPort? && Args(VirtioBlk, calls)[j].RootPort?
    ensures var p, q := Args(VirtioBlk, calls)[i], Args(VirtioBlk, calls)[j];
            p.slot != q.slot && p.chassis != q.chassis
  {
    hide DriveSpec, DeviceSpec, PmemSpec, DiskId, DevId;
    EachBridgeOnce(calls);
    PortsNumbered(calls, i);
    PortsNumbered(calls, j);
  }

  lemma {:induction false} PortsNumbered(calls: seq<Call>, i: nat)
    requires i < |Args(VirtioBlk, calls)| && Args(VirtioBlk, calls)[i].RootPort?
    ensures Args(VirtioBlk, calls)[i] == PortOf(Args(VirtioBlk, calls)[i].br)
  {
    hide DriveSpec, DeviceSpec, PmemSpec, DiskId, DevId;
    var init := calls[..|calls| - 1];
    if i < |Args(VirtioBlk, init)| {
      PortsNumbered(init, i);
    }
  }

  lemma OnceAppend(a: seq<Arg>, b: seq<Arg>)
    requires BridgesOnce(a) && BridgesOnce(b)
    requires forall i | 0 <= i < |b| && (b[i].RootPort? || b[i].PciBridge?) :: !Has(a, b[i])
    ensures BridgesOnce(a + b)
  {
    var c := a + b;
    forall i, j | 0 <= i < j < |c| && (c[i].RootPort? || c[i].PciBridge?)
      ensures c[i] != c[j]
    {
      if i < |a| <= j {
        assert c[j] == b[j - |a|];
      }
    }
  }

  /** The first disk number of every bridge in use is a disk, not a pmem. */
  predicate OpenersAreDisks(calls: seq<Call>) {
    forall nr | 1 <= nr < |calls| && calls[nr].QemuDisk? :: calls[Opener(Bridge(nr))].QemuDisk?
  }

  /** In whatever order disks and pmems are attached, each bridge is ready for its
      disks exactly when its first number went to a disk. */
  lemma {:induction false} BridgesReadyIff(calls: seq<Call>)
    ensures BridgesReady(Args(VirtioBlk, calls)) <==> OpenersAreDisks(calls)
  {
    hide Args, BridgesReady, Opener;
    if calls == [] {
      NoArgs();
    } else {
      BridgesReadyIff(calls[..|calls| - 1]);
      ReadyStep(calls);
      OpenersStep(calls);
    }
  }

  lemma NoArgs()
    ensures BridgesReady(Args(VirtioBlk, []))
  {
  }

  lemma OpenersStep(calls: seq<Call>)
    requires calls != []
    ensures OpenersAreDisks(calls) <==>
            OpenersAreDisks(calls[..|calls| - 1])
            && (|calls| > 1 && calls[|calls| - 1].QemuDisk? ==> calls[Opener(Bridge(|calls| - 1))].QemuDisk?)
  {
    var init := calls[..|calls| - 1];
    forall nr | 1 <= nr < |init|
      ensures calls[nr] == init[nr] && calls[Opener(Bridge(nr))] == init[Opener(Bridge(nr))]
    {
      OpenerIs(nr);
    }
  }

  lemma ReadyPrefix(a: seq<Arg>, b: seq<Arg>, i: nat)
    requires i < |a| && a[i].Disk? && a[i].nr > 0
    ensures ReadyAt(a + b, i) <==> ReadyAt(a, i)
  {
    var c := a + b;
    if ReadyAt(c, i) {
      var j, k :| 0 <= j < k < i && c[j] == PortOf(Bridge(c[i].nr)) && c[k] == PciBridge(Bridge(c[i].nr));
      assert a[j] == PortOf(Bridge(a[i].nr)) && a[k] == PciBridge(Bridge(a[i].nr));
    }
    if ReadyAt(a, i) {
      var j, k :| 0 <= j < k < i && a[j] == PortOf(Bridge(a[i].nr)) && a[k] == PciBridge(Bridge(a[i].nr));
      assert c[j] == PortOf(Bridge(c[i].nr)) && c[k] == PciBridge(Bridge(c[i].nr));
    }
  }

  predicate PortThenBridge(cmd: seq<Arg>, br: nat) {
    exists j | 0 <= j < |cmd| - 1 :: cmd[j] == PortOf(br) && cmd[j + 1] == PciBridge(br)
  }

  lemma PortThenBridgeAppend(a: seq<Arg>, b: seq<Arg>, br: nat)
    requires PortThenBridge(a, br) || PortThenBridge(b, br)
    ensures PortThenBridge(a + b, br)
  {
    var c := a + b;
    if PortThenBridge(a, br) {
      var j :| 0 <= j < |a| - 1 && a[j] == PortOf(br) && a[j + 1] == PciBridge(br);
      assert c[j] == PortOf(br) && c[j + 1] == PciBridge(br);
    } else {
      var j :| 0 <= j < |b| - 1 && b[j] == PortOf(br) && b[j + 1] == PciBridge(br);
      assert c[|a| + j] == PortOf(br) && c[|a| + j + 1] == PciBridge(br);
    }
  }

  /** The port is asked for just before the bridge. */
  lemma {:induction false} PortBefore(calls: seq<Call>, br: nat)
    requires Has(Args(VirtioBlk, calls), PciBridge(br))
    ensures PortThenBridge(Args(VirtioBlk, calls), br)
  {
    hide DriveSpec, DeviceSpec, PmemSpec, DiskId, DevId, PortThenBridge, Opener;
    var init, nr := calls[..|calls| - 1], |calls| - 1;
    var a, b := Args(VirtioBlk, init), ArgsOf(VirtioBlk, nr, calls[nr]);
    HasAppend(a, b, PciBridge(br));
    if Has(a, PciBridge(br)) {
      PortBefore(init, br);
    } else {
      BridgeOpened(nr, calls[nr], br);
      OpenedTogether(nr, calls[nr]);
    }
    PortThenBridgeAppend(a, b, br);
  }

  lemma OpenedTogether(nr: nat, call: Call)
    requires OpensBridge(VirtioBlk, nr) && call.QemuDisk?
    ensures PortThenBridge(ArgsOf(VirtioBlk, nr, call), Bridge(nr))
  {
    var b := ArgsOf(VirtioBlk, nr, call);
    assert b[0] == PortOf(Bridge(nr)) && b[0 + 1] == PciBridge(Bridge(nr));
  }

  lemma ReadyStep(calls: seq<Call>)
    requires calls != []
    ensures BridgesReady(Args(VirtioBlk, calls)) <==>
            BridgesReady(Args(VirtioBlk, calls[..|calls| - 1]))
            && (|calls| > 1 && calls[|calls| - 1].QemuDisk? ==> calls[Opener(Bridge(|calls| - 1))].QemuDisk?)
  {
    hide *;
    ArgsStep(calls);
    var init, nr := calls[..|calls| - 1], |calls| - 1;
    var a, b := Args(VirtioBlk, init), ArgsOf(VirtioBlk, nr, calls[nr]);
    if calls[nr].QemuDisk? && nr > 0 {
      LastReady(calls);
    }
    OnlyLastIsDisk(nr, calls[nr]);
    ReadyAppend(a, b);
  }

  lemma ArgsStep(calls: seq<Call>)
    requires calls != []
    ensures Args(VirtioBlk, calls)
         == Args(VirtioBlk, calls[..|calls| - 1]) + ArgsOf(VirtioBlk, |calls| - 1, calls[|calls| - 1])
  {
  }

  lemma OnlyLastIsDisk(nr: nat, call: Call)
    ensures var b := ArgsOf(VirtioBlk, nr, call);
            && |b| > 0 && (forall i | 0 <= i < |b| - 1 :: !b[i].Disk?)
            && (b[|b| - 1].Disk? <==> call.QemuDisk?) && (call.QemuDisk? ==> b[|b| - 1].nr == nr)
  {
  }

  lemma ReadyAppend(a: seq<Arg>, b: seq<Arg>)
    requires |b| > 0 && forall i | 0 <= i < |b| - 1 :: !b[i].Disk?
    ensures BridgesReady(a + b) <==>
            BridgesReady(a) && (b[|b| - 1].Disk? && b[|b| - 1].nr > 0 ==> ReadyAt(a + b, |a + b| - 1))
  {
    hide ReadyAt, Bridge;
    var c := a + b;
    forall i | 0 <= i < |a| && a[i].Disk? && a[i].nr > 0
      ensures c[i] == a[i] && (ReadyAt(c, i) <==> ReadyAt(a, i))
    {
      ReadyPrefix(a, b, i);
    }
    assert forall i | |a| <= i < |c| - 1 :: c[i] == b[i - |a|];
    assert forall i | 0 <= i < |a| :: c[i] == a[i];
  }

  lemma LastReady(calls: seq<Call>)
    requires |calls| > 1 && calls[|calls| - 1].QemuDisk?
    ensures var cmd, nr := Args(VirtioBlk, calls), |calls| - 1;
            && |cmd| > 0 && cmd[|cmd| - 1].Disk? && cmd[|cmd| - 1].nr == nr
            && (ReadyAt(cmd, |cmd| - 1) <==> calls[Opener(Bridge(nr))].QemuDisk?)
  {
    hide Args, ArgsOf, Opener, OpensBridge;
    ArgsStep(calls);
    OnlyLastIsDisk(|calls| - 1, calls[|calls| - 1]);
    var cmd, nr := Args(VirtioBlk, calls), |calls| - 1;
    var br, last := Bridge(nr), |cmd| - 1;
    OpenerIs(nr);
    BridgesAre(calls, br);
    if calls[Opener(br)].QemuDisk? {
      PortBefore(calls, br);
      var j :| 0 <= j < |cmd| - 1 && cmd[j] == PortOf(br) && cmd[j + 1] == PciBridge(br);
      assert j + 1 < last;
    }
    if ReadyAt(cmd, last) {
      var j, k :| 0 <= j < k < last && cmd[j] == PortOf(br) && cmd[k] == PciBridge(br);
      assert Has(cmd, PciBridge(br));
    }
  }

  /** The order start_vm attaches in, root and disks first and pmem last, has every
      bridge ready for its disks, and opens each once. */
  lemma StartVmBridges(root: string, images: seq<string>, rwImages: seq<string>, scratch: seq<string>,
                       slow: seq<string>, pmem: seq<string>)
    ensures var cmd := Args(VirtioBlk, VmCalls(root, images, rwImages, scratch, slow, pmem));
            BridgesReady(cmd) && BridgesOnce(cmd)
  {
    hide Args, BridgesReady, BridgesOnce, AllDisks, AllPmems;
    var calls := VmCalls(root, images, rwImages, scratch, slow, pmem);
    forall nr | 1 <= nr < |calls| && calls[nr].QemuDisk?
      ensures calls[Opener(Bridge(nr))].QemuDisk?
    {
      OpenerIs(nr);
    }
    BridgesReadyIff(calls);
    EachBridgeOnce(calls);
  }

  // --- places ---

  lemma {:induction false} HexInjective(m: nat, n: nat)
    requires Hex(m) == Hex(n)
    ensures m == n
  {
    var s, t := Hex(m), Hex(n);
    assert s[|s| - 1] == HexDigit(m % 16) && t[|t| - 1] == HexDigit(n % 16);
    if m >= 16 && n >= 16 {
      assert s[..|s| - 1] == Hex(m / 16) && t[..|t| - 1] == Hex(n / 16);
      HexInjective(m / 16, n / 16);
    } else if m >= 16 {
      HexNonempty(m / 16);
    } else if n >= 16 {
      HexNonempty(n / 16);
    }
  }

  lemma {:induction false} HexNonempty(n: nat)
    ensures Hex(n) != [] && forall c | c in Hex(n) :: IsDigit(c) || 'a' <= c <= 'f'
  {
    if n >= 16 {
      HexNonempty(n / 16);
    }
  }

  lemma SamePrefix(prefix: string, a: string, b: string)
    requires prefix + a == prefix + b
    ensures a == b
  {
    assert (prefix + a)[|prefix|..] == a && (prefix + b)[|prefix|..] == b;
  }

  /** No two disks share a bridge slot, or an IDE port; slots start at 1. */
  lemma PlacesDistinct(bus: Bus, m: nat, n: nat)
    requires 0 < m && 0 < n && m != n && !bus.Scsi?
    ensures Place(bus, m) != Place(bus, n)
    ensures 1 <= Slot(m) <= 31 && (Bridge(m), Slot(m)) != (Bridge(n), Slot(n))
  {
    OpenerIs(m);
    OpenerIs(n);
    if Place(bus, m) == Place(bus, n) {
      var a := PlaceParts(bus, m);
      var b := PlaceParts(bus, n);
      JoinInjective(a, b, ',');
      if bus.VirtioBlk? {
        assert a[0] == b[0] && a[1] == b[1];
        SamePrefix("bus=pci.blk", Decimal(Bridge(m)), Decimal(Bridge(n)));
        SamePrefix("addr=0x", Hex(Slot(m)), Hex(Slot(n)));
        DecimalInjective(Bridge(m), Bridge(n));
        HexInjective(Slot(m), Slot(n));
      } else {
        assert a[0] == b[0];
        SamePrefix("bus=hba.", Decimal(m - 1), Decimal(n - 1));
        DecimalInjective(m - 1, n - 1);
      }
    }
  }

  lemma PlaceParts(bus: Bus, nr: nat) returns (parts: seq<string>)
    requires nr > 0 && !bus.Scsi?
    ensures parts == if bus.VirtioBlk? then ["bus=pci.blk" + Decimal(Bridge(nr)), "addr=0x" + Hex(Slot(nr)), ""]
                     else ["bus=hba." + Decimal(nr - 1), ""]
    ensures Place(bus, nr) == Join(parts, ',') && forall i | 0 <= i < |parts| :: ',' !in parts[i]
  {
    hide Hex, Decimal, Bridge, Slot;
    HexNonempty(Slot(nr));
    if bus.VirtioBlk? {
      var p, q := "bus=pci.blk" + Decimal(Bridge(nr)), "addr=0x" + Hex(Slot(nr));
      parts := [p, q, ""];
      JoinTwo(q, "", ',');
      assert parts[1..] == [q, ""];
      assert Join(parts, ',') == p + [','] + (q + [','] + "");
      assert p + [','] + (q + [','] + "") == Place(bus, nr);
    } else {
      var p := "bus=hba." + Decimal(nr - 1);
      parts := [p, ""];
      JoinTwo(p, "", ',');
      assert p + [','] + "" == Place(bus, nr);
    }
  }

  // --- the lists ---

  lemma DecimalFree(n: nat)
    ensures NL !in Decimal(n)
  {
  }

  lemma PlaceFree(bus: Bus, nr: nat)
    requires nr > 0
    ensures NL !in Place(bus, nr)
  {
    HexNonempty(Slot(nr));
    DecimalFree(Bridge(nr));
    DecimalFree(nr - 1);
    hide Hex, Decimal;
  }

  lemma IdsFree(nr: nat)
    ensures NL !in DiskId(nr) && NL !in DevId(nr) && NL !in PmemSpec(nr)
  {
    DecimalFree(nr);
    hide Decimal;
  }

  lemma DeviceFree(bus: Bus, nr: nat, disk: string, dev: string)
    requires NL !in disk && NL !in dev
    ensures NL !in DeviceSpec(bus, nr, disk, dev)
  {
    if nr > 0 {
      PlaceFree(bus, nr);
    }
    hide Place;
  }

  lemma NoNewlines(bus: Bus, nr: nat, call: Call)
    ensures NL in DriveField(nr, call) <==> call.QemuDisk? && NL in call.arg
    ensures NL !in DeviceField(bus, nr, call)
    ensures call.QemuDisk? ==> DriveField(nr, call) != ""
  {
    hide DiskId, DevId, PmemSpec, DeviceSpec;
    IdsFree(nr);
    DeviceFree(bus, nr, DiskId(nr), DevId(nr));
  }

  /** Split in the guest, the lists of start_vm give disk N's arguments as field N,
      pmem included, exactly when no disk's arguments hold a newline. */
  lemma FieldIsDisk(bus: Bus, root: string, rest: seq<Call>)
    ensures var calls := [QemuDisk(root)] + rest;
            && Fields(Listed(DeviceFields(bus, calls))) == DeviceFields(bus, calls)
            && (Fields(Listed(DriveFields(calls))) == DriveFields(calls) <==>
                forall i | 0 <= i < |calls| && calls[i].QemuDisk? :: NL !in calls[i].arg)
  {
    hide DriveField, DeviceField, Listed, Fields;
    var calls := [QemuDisk(root)] + rest;
    forall i | 0 <= i < |calls|
      ensures NL in DriveFields(calls)[i] <==> calls[i].QemuDisk? && NL in calls[i].arg
      ensures NL !in DeviceFields(bus, calls)[i]
    {
      NoNewlines(bus, i, calls[i]);
    }
    NoNewlines(bus, 0, calls[0]);
    FieldsAlignIff(DriveFields(calls));
    assert DeviceField(bus, 0, calls[0]) != "" by {
      RootDevice(bus, calls[0]);
    }
    FieldsAlignIff(DeviceFields(bus, calls));
  }

  /** A newline in an image's path shifts every later disk by one. */
  lemma NewlineShifts(bus: Bus)
    ensures var calls := [QemuDisk("file=a,snapshot=on")] + [QemuDisk("file=b\nc"), QemuDisk("file=d")];
            Fields(Listed(DriveFields(calls))) != DriveFields(calls)
  {
    var rest := [QemuDisk("file=b\nc"), QemuDisk("file=d")];
    var calls := [QemuDisk("file=a,snapshot=on")] + rest;
    assert calls[1].arg[6] == NL;
    hide DriveFields, Listed, Fields, DeviceFields;
    FieldIsDisk(bus, "file=a,snapshot=on", rest);
    assert NL in calls[1].arg;
  }

  lemma RootDevice(bus: Bus, call: Call)
    ensures DeviceField(bus, 0, call) != ""
  {
  }
}
