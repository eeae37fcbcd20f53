/** Unplugging and plugging scratch devices (tests/prelude.sh scratch_dev_unplug,
    scratch_dev_plug, scratch_dev_replug_all): ids carry a generation, because qemu
    does not let an id be used twice. */
module Hotplug {
  import opened Text
  import opened FieldList
  import Disks

  // --- first-match substitution ---

  /** `${s/pat/rep}` for a pattern without glob characters. */
  function ReplaceFirst(s: string, pat: string, rep: string): string
    requires pat != []
    decreases |s|
  {
    if StartsWith(s, pat) then rep + s[|pat|..]
    else if s == [] then []
    else [s[0]] + ReplaceFirst(s[1..], pat, rep)
  }

  lemma {:induction false} FirstAt(prefix: string, pat: string, rest: string, rep: string)
    requires pat != [] && forall i | 0 <= i < |prefix| :: !OccursAt(prefix + pat + rest, pat, i)
    ensures ReplaceFirst(prefix + pat + rest, pat, rep) == prefix + rep + rest
    decreases |prefix|
  {
    var s := prefix + pat + rest;
    if prefix == [] {
      assert s[..|pat|] == pat && s[|pat|..] == rest;
    } else {
      assert !OccursAt(s, pat, 0);
      assert s[0..|pat|] == s[..|pat|];
      var tail := prefix[1..] + pat + rest;
      assert s[1..] == tail;
      forall i | 0 <= i < |prefix[1..]|
        ensures !OccursAt(tail, pat, i)
      {
        assert !OccursAt(s, pat, i + 1);
        assert i + |pat| <= |tail| ==> tail[i..i + |pat|] == s[i + 1..i + 1 + |pat|];
      }
      FirstAt(prefix[1..], pat, rest, rep);
      assert [s[0]] + (prefix[1..] + rep + rest) == prefix + rep + rest;
    }
  }

  /** Inside s, c is never followed by d, and s does not end in c. */
  predicate Safe(s: string, c: char, d: char) {
    forall i | 0 <= i < |s| && s[i] == c :: i + 1 < |s| && s[i + 1] != d
  }

  lemma SafeAppend(a: string, b: string, c: char, d: char)
    requires Safe(a, c, d) && Safe(b, c, d)
    ensures Safe(a + b, c, d)
  {
  }

  lemma OccursReads(s: string, pat: string, i: nat, k: nat)
    requires OccursAt(s, pat, i) && k + 1 < |pat|
    ensures s[i + k] == pat[k] && s[i + k + 1] == pat[k + 1]
  {
    assert s[i..i + |pat|][k] == s[i + k] && s[i..i + |pat|][k + 1] == s[i + k + 1];
  }

  /** A pattern whose k-th character is c, followed by d, is not found early. */
  lemma NotEarlier(prefix: string, pat: string, rest: string, k: nat)
    requires k <= 1 && k + 1 < |pat| && Safe(prefix, pat[k], pat[k + 1]) && (k == 1 ==> pat[0] != pat[1])
    ensures forall i | 0 <= i < |prefix| :: !OccursAt(prefix + pat + rest, pat, i)
  {
    var s := prefix + pat + rest;
    forall i | 0 <= i < |prefix|
      ensures !OccursAt(s, pat, i)
    {
      if OccursAt(s, pat, i) {
        OccursReads(s, pat, i, k);
        assert false;
      }
    }
  }

  // --- ids ---

  function Suffix(gen: nat): string {
    if gen == 0 then "" else "p" + Decimal(gen)
  }

  function DevIdAt(nr: nat, gen: nat): string {
    Disks.DevId(nr) + Suffix(gen)
  }

  function DiskIdAt(nr: nat, gen: nat): string {
    Disks.DiskId(nr) + Suffix(gen)
  }

  /** An id names its disk and its generation. */
  lemma IdsInjective(m: nat, g: nat, n: nat, h: nat)
    requires DevIdAt(m, g) == DevIdAt(n, h) || DiskIdAt(m, g) == DiskIdAt(n, h)
    ensures m == n && g == h
  {
    hide Decimal, Suffix;
    var a, b := Decimal(m) + Suffix(g), Decimal(n) + Suffix(h);
    if DevIdAt(m, g) == DevIdAt(n, h) {
      assert "dev" + a == DevIdAt(m, g) && "dev" + b == DevIdAt(n, h);
      Disks.SamePrefix("dev", a, b);
    } else {
      assert "disk" + a == DiskIdAt(m, g) && "disk" + b == DiskIdAt(n, h);
      Disks.SamePrefix("disk", a, b);
    }
    NumbersInjective(m, g, n, h);
  }

  lemma NumbersInjective(m: nat, g: nat, n: nat, h: nat)
    requires Decimal(m) + Suffix(g) == Decimal(n) + Suffix(h)
    ensures m == n && g == h
  {
    hide Decimal, Suffix, Split;
    NumberParts(m, g);
    NumberParts(n, h);
    assert (g == 0) == (h == 0) && Decimal(m) == Decimal(n);
    DecimalInjective(m, n);
    if g != 0 {
      assert [Decimal(m), Decimal(g)][1] == [Decimal(n), Decimal(h)][1];
      DecimalInjective(g, h);
    }
  }

  lemma NumberParts(n: nat, gen: nat)
    ensures Split(Decimal(n) + Suffix(gen), 'p') == if gen == 0 then [Decimal(n)] else [Decimal(n), Decimal(gen)]
  {
    hide Decimal, Split;
    var d, g := Decimal(n), Decimal(gen);
    assert !IsDigit('p');
    if gen == 0 {
      assert d + "" == d;
      SplitJoin([d], 'p');
    } else {
      JoinTwo(d, g, 'p');
      assert d + ['p'] + g == d + Suffix(gen);
      SplitJoin([d, g], 'p');
    }
  }

  // --- the specs of a generation ---

  function DriveAt(drive: string, nr: nat, gen: nat): string {
    ReplaceFirst(drive, "id=" + Disks.DiskId(nr) + ",", "id=" + DiskIdAt(nr, gen) + ",")
  }

  function DeviceAt(spec: string, nr: nat, gen: nat): string {
    ReplaceFirst(ReplaceFirst(spec, "drive=" + Disks.DiskId(nr) + ",", "drive=" + DiskIdAt(nr, gen) + ","),
                 "id=" + Disks.DevId(nr), "id=" + DevIdAt(nr, gen))
  }

  /** Whatever else the drive's arguments say, only its own id is rewritten. */
  lemma DriveRenamed(nr: nat, gen: nat, arg: string)
    ensures DriveAt(Disks.DriveSpec(Disks.DiskId(nr), arg), nr, gen) == Disks.DriveSpec(DiskIdAt(nr, gen), arg)
  {
    hide Decimal;
    var head, pat := "if=none,format=raw,", "id=" + Disks.DiskId(nr) + ",";
    assert pat[0] == 'i' && pat[1] == 'd' && pat[2] == '=';
    NotEarlier(head, pat, arg, 1);
    FirstAt(head, pat, arg, "id=" + DiskIdAt(nr, gen) + ",");
  }

  lemma SafeTail(s: string, c: char, d: char)
    requires d !in s && (s != [] ==> s[|s| - 1] != c)
    ensures Safe(s, c, d)
  {
  }

  lemma SafeWithout(s: string, c: char, d: char)
    requires c !in s
    ensures Safe(s, c, d)
  {
  }

  lemma IdeHead(nr: nat)
    requires nr > 0
    ensures Disks.Head(Disks.Ide, nr) == "ide-hd,bus" + "=hba." + (Decimal(nr - 1) + ",")
  {
    hide Decimal;
  }

  lemma HeadSafe(bus: Disks.Bus, nr: nat)
    requires nr > 0
    ensures Safe(Disks.Head(bus, nr), 'd', 'r') && Safe(Disks.Head(bus, nr), 'd', '=')
  {
    hide Decimal, Safe;
    match bus
    case VirtioBlk =>
      SafeWithout("virtio-blk-pci,", 'd', 'r');
      SafeWithout("virtio-blk-pci,", 'd', '=');
    case Ide =>
      HeadNumberSafe("ide-hd,bus", "=hba.", Decimal(nr - 1) + ",");
      IdeHead(nr);
    case Scsi =>
      HeadNumberSafe("scsi-hd,bus", "=hba.", "0,");
      assert Disks.Head(bus, nr) == "scsi-hd,bus" + "=hba." + "0,";
  }

  lemma HeadNumberSafe(a: string, b: string, c: string)
    requires '=' !in a && 'r' !in a && a != [] && a[|a| - 1] != 'd' && 'd' !in b && 'd' !in c
    ensures Safe(a + b + c, 'd', 'r') && Safe(a + b + c, 'd', '=')
  {
    SafeTail(a, 'd', 'r');
    SafeTail(a, 'd', '=');
    hide Safe;
    SafeWithout(b, 'd', 'r');
    SafeWithout(b, 'd', '=');
    SafeWithout(c, 'd', 'r');
    SafeWithout(c, 'd', '=');
    SafeAppend(a, b, 'd', 'r');
    SafeAppend(a, b, 'd', '=');
    SafeAppend(a + b, c, 'd', 'r');
    SafeAppend(a + b, c, 'd', '=');
  }

  lemma MiddleSafe(bus: Disks.Bus, nr: nat)
    requires nr > 0
    ensures Safe(Disks.Middle(bus, nr), 'd', '=')
  {
    if bus.VirtioBlk? {
      var n, h := Decimal(Disks.Bridge(nr)), Disks.Hex(Disks.Slot(nr)) + ",";
      Disks.HexNonempty(Disks.Slot(nr));
      assert 'd' !in n && '=' !in h;
      hide Decimal, Disks.Hex;
      SafeTail(h, 'd', '=');
      assert Safe("bus=pci.blk" + n, 'd', '=') && Safe(",addr=0x", 'd', '=');
      SafeAppend("bus=pci.blk" + n, ",addr=0x", 'd', '=');
      SafeAppend("bus=pci.blk" + n + ",addr=0x", h, 'd', '=');
      assert Disks.Middle(bus, nr) == "bus=pci.blk" + n + ",addr=0x" + h;
    }
  }

  lemma FirstRenaming(head: string, disk: string, disk2: string, tail: string)
    requires Safe(head, 'd', 'r')
    ensures ReplaceFirst(head + ("drive=" + disk + ",") + tail, "drive=" + disk + ",", "drive=" + disk2 + ",")
         == head + ("drive=" + disk2 + ",") + tail
  {
    hide ReplaceFirst, Safe, OccursAt;
    var pat := "drive=" + disk + ",";
    assert pat[0] == 'd' && pat[1] == 'r';
    NotEarlier(head, pat, tail, 0);
    FirstAt(head, pat, tail, "drive=" + disk2 + ",");
  }

  lemma SecondRenaming(front: string, dev: string, dev2: string)
    requires Safe(front, 'd', '=')
    ensures ReplaceFirst(front + ("id=" + dev), "id=" + dev, "id=" + dev2) == front + ("id=" + dev2)
  {
    hide ReplaceFirst, Safe, OccursAt;
    var pat := "id=" + dev;
    assert pat[0] == 'i' && pat[1] == 'd' && pat[2] == '=';
    NotEarlier(front, pat, "", 1);
    FirstAt(front, pat, "", "id=" + dev2);
    assert front + pat + "" == front + pat && front + ("id=" + dev2) + "" == front + ("id=" + dev2);
  }

  lemma FrontSafe(bus: Disks.Bus, nr: nat, disk2: string)
    requires nr > 0 && '=' !in disk2
    ensures Safe(Disks.Head(bus, nr) + ("drive=" + disk2 + ",") + Disks.Middle(bus, nr), 'd', '=')
  {
    hide Disks.Head, Disks.Middle, Safe;
    HeadSafe(bus, nr);
    MiddleSafe(bus, nr);
    DriveKeySafe(disk2);
    SafeAppend(Disks.Head(bus, nr), "drive=" + disk2 + ",", 'd', '=');
    SafeAppend(Disks.Head(bus, nr) + ("drive=" + disk2 + ","), Disks.Middle(bus, nr), 'd', '=');
  }

  lemma IdPlain(nr: nat, gen: nat)
    ensures '=' !in DiskIdAt(nr, gen)
  {
  }

  /** The device goes back to the same place, with fresh ids. */
  lemma DeviceRenamed(bus: Disks.Bus, nr: nat, gen: nat)
    requires nr > 0
    ensures DeviceAt(Disks.DeviceSpec(bus, nr, Disks.DiskId(nr), Disks.DevId(nr)), nr, gen)
         == Disks.DeviceSpec(bus, nr, DiskIdAt(nr, gen), DevIdAt(nr, gen))
  {
    hide Disks.Head, Disks.Middle, Disks.DiskId, Disks.DevId, DiskIdAt, DevIdAt, ReplaceFirst, Safe;
    var disk, disk2, dev, dev2 := Disks.DiskId(nr), DiskIdAt(nr, gen), Disks.DevId(nr), DevIdAt(nr, gen);
    HeadSafe(bus, nr);
    IdPlain(nr, gen);
    FrontSafe(bus, nr, disk2);
    var head, mid := Disks.Head(bus, nr), Disks.Middle(bus, nr);
    var rep := "drive=" + disk2 + ",";
    FirstRenaming(head, disk, disk2, mid + ("id=" + dev));
    SecondRenaming(head + rep + mid, dev, dev2);
    Regroup(head + rep, mid, "id=" + dev);
    Regroup(head + rep, mid, "id=" + dev2);
  }

  lemma Regroup(a: string, b: string, c: string)
    ensures a + (b + c) == a + b + c
  {
  }

  lemma DriveKeySafe(disk: string)
    requires '=' !in disk
    ensures Safe("drive=" + disk + ",", 'd', '=')
  {
    var s := "drive=" + disk + ",";
    assert forall i | 6 <= i < |s| :: s[i] != '=';
  }

  /** The lists start_vm hands over, split in the guest: plugging disk nr asks qemu
      for the same drive and the same device in the same place, under the ids of
      the generation; for a pmem there is nothing to ask for. */
  lemma ReplugsSameDisk(bus: Disks.Bus, root: string, rest: seq<Disks.Call>, nr: nat, gen: nat)
    requires var calls := [Disks.QemuDisk(root)] + rest;
             && 0 < nr < |calls|
             && forall i | 0 <= i < |calls| && calls[i].QemuDisk? :: NL !in calls[i].arg
    ensures var calls := [Disks.QemuDisk(root)] + rest;
            var drives := Fields(Listed(Disks.DriveFields(calls)));
            var devices := Fields(Listed(Disks.DeviceFields(bus, calls)));
            && |drives| == |devices| == |calls|
            && (if calls[nr].QemuDisk? then
                  && DriveAt(drives[nr], nr, gen) == Disks.DriveSpec(DiskIdAt(nr, gen), calls[nr].arg)
                  && DeviceAt(devices[nr], nr, gen) == Disks.DeviceSpec(bus, nr, DiskIdAt(nr, gen), DevIdAt(nr, gen))
                else drives[nr] == "")
  {
    hide Fields, Listed, DriveAt, DeviceAt, DiskIdAt, DevIdAt, Disks.DriveSpec, Disks.DeviceSpec, Disks.DiskId,
            Disks.DevId;
    var calls := [Disks.QemuDisk(root)] + rest;
    Disks.FieldIsDisk(bus, root, rest);
    if calls[nr].QemuDisk? {
      DriveRenamed(nr, gen, calls[nr].arg);
      DeviceRenamed(bus, nr, gen);
    }
  }

  // --- qemu, the state files, and what the tests send ---

  datatype DevState = DevState(gone: bool, id: string, gen: nat)

  datatype Command =
    | DeviceDel(id: string)
    | DriveAdd(nr: nat, gen: nat, spec: string)
    | DeviceAdd(nr: nat, gen: nat, spec: string)

  /** The state files by disk number, the device at each disk's place, and the
      monitor commands sent. */
  datatype World = World(states: map<nat, DevState>, at: map<nat, string>, sent: seq<Command>)

  /** scratch_dev_state: without a file the device is as it was at boot. */
  function StateOf(w: World, nr: nat): DevState {
    if nr in w.states then w.states[nr] else DevState(false, Disks.DevId(nr), 0)
  }

  /** qemu takes away the device of that id, if it has one. */
  function Deleted(at: map<nat, string>, id: string): map<nat, string> {
    map nr | nr in at && at[nr] != id :: at[nr]
  }

  /** qemu refuses a device whose place is taken. */
  function Added(at: map<nat, string>, nr: nat, id: string): map<nat, string> {
    if nr in at then at else at[nr := id]
  }

  /** `accepted`: qemu takes the drive and the device it is given. */
  datatype Op = Unplug(nr: nat) | Plug(nr: nat, accepted: bool)

  /** The wait at the end of the call times out, or the unplug finds nothing to do. */
  predicate Fails(w: World, op: Op) {
    match op
    case Unplug(nr) => nr !in w.at || nr in Deleted(w.at, StateOf(w, nr).id)
    case Plug(nr, accepted) => nr !in w.at && !accepted
  }

  /** One call. An unplug that finds the device absent does nothing; one whose device
      does not go away leaves the state file alone. A plug writes the state file before
      it waits, so also when qemu refused. */
  function Do(w: World, op: Op, drive: string, device: string): World {
    var nr, s := op.nr, StateOf(w, op.nr);
    match op
    case Unplug(_) =>
      if nr !in w.at then w
      else
        var at := Deleted(w.at, s.id);
        World(if nr in at then w.states else w.states[nr := s.(gone := true)], at, w.sent + [DeviceDel(s.id)])
    case Plug(_, accepted) =>
      var gen := s.gen + 1;
      World(w.states[nr := DevState(false, DevIdAt(nr, gen), gen)],
            if accepted then Added(w.at, nr, DevIdAt(nr, gen)) else w.at,
            w.sent + [DriveAdd(nr, gen, DriveAt(drive, nr, gen)), DeviceAdd(nr, gen, DeviceAt(device, nr, gen))])
  }

  function Booted(disks: set<nat>): World {
    World(map[], map nr | nr in disks :: Disks.DevId(nr), [])
  }

  /** Calls in order; the lists handed to the guest do not change. */
  function Run(w: World, ops: seq<Op>, drives: nat -> string, devices: nat -> string): World
    decreases |ops|
  {
    if ops == [] then w else Run(Do(w, ops[0], drives(ops[0].nr), devices(ops[0].nr)), ops[1..], drives, devices)
  }

  /** Somewhere along the way a disk that was there was plugged. */
  predicate PlugsPresent(w: World, ops: seq<Op>, drives: nat -> string, devices: nat -> string, nr: nat)
    decreases |ops|
  {
    ops != []
    && ((ops[0].Plug? && ops[0].nr == nr && nr in w.at)
        || PlugsPresent(Do(w, ops[0], drives(ops[0].nr), devices(ops[0].nr)), ops[1..], drives, devices, nr))
  }

  /** The last plug of the disk was refused; `was` if there is none. */
  predicate LastRefused(ops: seq<Op>, nr: nat, was: bool)
    decreases |ops|
  {
    if ops == [] then was
    else LastRefused(ops[1..], nr, if ops[0].Plug? && ops[0].nr == nr then !ops[0].accepted else was)
  }

  /** The generation of the device at a place, never newer than the state file's. */
  ghost predicate Known(w: World) {
    && (forall nr | nr in w.states :: w.states[nr].id == DevIdAt(nr, w.states[nr].gen))
    && (forall nr | nr in w.at :: exists g | 0 <= g <= StateOf(w, nr).gen :: w.at[nr] == DevIdAt(nr, g))
  }

  /** The state file tells the truth about the disk. */
  predicate Truthful(w: World, nr: nat) {
    (nr in w.at <==> !StateOf(w, nr).gone) && (nr in w.at ==> w.at[nr] == StateOf(w, nr).id)
  }

  /** It names a newer device than the one that is there. */
  ghost predicate Stale(w: World, nr: nat) {
    nr in w.at && !StateOf(w, nr).gone && exists g | 0 <= g < StateOf(w, nr).gen :: w.at[nr] == DevIdAt(nr, g)
  }

  /** It names a device qemu refused, and none is there. */
  predicate Missing(w: World, nr: nat) {
    nr !in w.at && !StateOf(w, nr).gone
  }

  lemma KnownState(w: World, nr: nat)
    requires Known(w)
    ensures StateOf(w, nr).id == DevIdAt(nr, StateOf(w, nr).gen)
  {
    assert Disks.DevId(nr) + "" == Disks.DevId(nr);
  }

  lemma DoKeepsKnown(w: World, op: Op, drive: string, device: string)
    requires Known(w)
    ensures Known(Do(w, op, drive, device))
  {
    hide DevIdAt, Disks.DevId, DriveAt, DeviceAt;
    KnownState(w, op.nr);
    var v := Do(w, op, drive, device);
    forall nr | nr in v.at
      ensures exists g | 0 <= g <= StateOf(v, nr).gen :: v.at[nr] == DevIdAt(nr, g)
    {
      if nr in w.at {
        var g :| 0 <= g <= StateOf(w, nr).gen && w.at[nr] == DevIdAt(nr, g);
        assert v.at[nr] == w.at[nr] && StateOf(w, nr).gen <= StateOf(v, nr).gen;
      } else {
        assert op == Plug(nr, true) && v.at[nr] == DevIdAt(nr, StateOf(v, nr).gen);
      }
    }
  }

  /** Calls for one disk do not touch another. */
  lemma OthersUntouched(w: World, op: Op, drive: string, device: string, nr: nat)
    requires Known(w) && nr != op.nr
    ensures var v := Do(w, op, drive, device);
            StateOf(v, nr) == StateOf(w, nr) && (nr in v.at <==> nr in w.at) && (nr in w.at ==> v.at[nr] == w.at[nr])
  {
    hide DevIdAt, Disks.DevId, DriveAt, DeviceAt;
    KnownState(w, op.nr);
    if nr in w.at && op.Unplug? {
      var g :| 0 <= g <= StateOf(w, nr).gen && w.at[nr] == DevIdAt(nr, g);
      if w.at[nr] == StateOf(w, op.nr).id {
        IdsInjective(nr, g, op.nr, StateOf(w, op.nr).gen);
      }
    }
  }

  lemma OwnTruthful(w: World, op: Op, drive: string, device: string)
    requires Known(w) && Truthful(w, op.nr)
    ensures var v := Do(w, op, drive, device);
            if op.Plug? && op.nr in w.at then Stale(v, op.nr)
            else if op.Plug? && !op.accepted then Missing(v, op.nr)
            else Truthful(v, op.nr)
  {
    hide DevIdAt, Disks.DevId, DriveAt, DeviceAt;
    KnownState(w, op.nr);
  }

  /** An accepted plug mends it. */
  lemma OwnMissing(w: World, op: Op, drive: string, device: string)
    requires Known(w) && Missing(w, op.nr)
    ensures var v := Do(w, op, drive, device);
            if op.Plug? && op.accepted then Truthful(v, op.nr) else Missing(v, op.nr)
  {
    hide DevIdAt, Disks.DevId, DriveAt, DeviceAt;
  }

  lemma OwnStale(w: World, op: Op, drive: string, device: string)
    requires Known(w) && Stale(w, op.nr)
    ensures Stale(Do(w, op, drive, device), op.nr)
  {
    hide DevIdAt, Disks.DevId, DriveAt, DeviceAt;
    KnownState(w, op.nr);
    var g :| 0 <= g < StateOf(w, op.nr).gen && w.at[op.nr] == DevIdAt(op.nr, g);
    if w.at[op.nr] == StateOf(w, op.nr).id {
      IdsInjective(op.nr, g, op.nr, StateOf(w, op.nr).gen);
    }
  }

  /** From then on the state file is stale for good. */
  lemma {:induction false} StaleForGood(w: World, ops: seq<Op>, drives: nat -> string, devices: nat -> string, nr: nat)
    requires Known(w) && Stale(w, nr)
    ensures Known(Run(w, ops, drives, devices)) && Stale(Run(w, ops, drives, devices), nr)
    decreases |ops|
  {
    if ops != [] {
      hide Do, Known, Stale;
      var op := ops[0];
      var v := Do(w, op, drives(op.nr), devices(op.nr));
      DoKeepsKnown(w, op, drives(op.nr), devices(op.nr));
      if op.nr == nr {
        OwnStale(w, op, drives(nr), devices(nr));
      } else {
        StaleElsewhere(w, op, drives(op.nr), devices(op.nr), nr);
      }
      StaleForGood(v, ops[1..], drives, devices, nr);
    }
  }

  lemma StaleElsewhere(w: World, op: Op, drive: string, device: string, nr: nat)
    requires Known(w) && Stale(w, nr) && op.nr != nr
    ensures Stale(Do(w, op, drive, device), nr)
  {
    hide DevIdAt, Disks.DevId, Do;
    OthersUntouched(w, op, drive, device, nr);
  }

  lemma StaleNotTruthful(w: World, nr: nat)
    requires Known(w) && Stale(w, nr)
    ensures !Truthful(w, nr) && Fails(w, Unplug(nr))
  {
    hide DevIdAt, Disks.DevId;
    KnownState(w, nr);
    var g :| 0 <= g < StateOf(w, nr).gen && w.at[nr] == DevIdAt(nr, g);
    if w.at[nr] == StateOf(w, nr).id {
      IdsInjective(nr, g, nr, StateOf(w, nr).gen);
    }
  }

  /** The state file of a disk is truthful exactly as long as nobody plugs the disk
      while it is there, after which it never is again, and qemu took the last plug. */
  lemma {:induction false} TruthfulIff(w: World, ops: seq<Op>, drives: nat -> string, devices: nat -> string, nr: nat,
                                       was: bool)
    requires Known(w) && if was then Missing(w, nr) else Truthful(w, nr)
    ensures var t := Run(w, ops, drives, devices);
            && Known(t)
            && (Truthful(t, nr) <==> !PlugsPresent(w, ops, drives, devices, nr) && !LastRefused(ops, nr, was))
            && (Stale(t, nr) <==> PlugsPresent(w, ops, drives, devices, nr))
            && (Truthful(t, nr) || Missing(t, nr) || Stale(t, nr))
    decreases |ops|
  {
    if ops == [] {
      StartsOk(w, nr);
    } else {
      var op := ops[0];
      var v := Do(w, op, drives(op.nr), devices(op.nr));
      DoKeepsKnown(w, op, drives(op.nr), devices(op.nr));
      NextState(w, op, drives(op.nr), devices(op.nr), nr, was);
      MissingIs(w, nr);
      hide Do, Known, Truthful, Stale, Fails, Missing;
      if op.Plug? && op.nr == nr && nr in w.at {
        StaleForGood(v, ops[1..], drives, devices, nr);
        StaleNotTruthful(Run(v, ops[1..], drives, devices), nr);
      } else {
        TruthfulIff(v, ops[1..], drives, devices, nr, if op.Plug? && op.nr == nr then !op.accepted else was);
      }
    }
  }

  lemma MissingIs(w: World, nr: nat)
    ensures Missing(w, nr) ==> nr !in w.at
  {
  }

  lemma StartsOk(w: World, nr: nat)
    requires Known(w) && (Truthful(w, nr) || Missing(w, nr))
    ensures !Stale(w, nr) && !(Truthful(w, nr) && Missing(w, nr))
  {
    if Stale(w, nr) {
      StaleNotTruthful(w, nr);
      assert false;
    }
  }

  lemma NextState(w: World, op: Op, drive: string, device: string, nr: nat, was: bool)
    requires Known(w) && if was then Missing(w, nr) else Truthful(w, nr)
    ensures var v := Do(w, op, drive, device);
            if op.Plug? && op.nr == nr && nr in w.at then Stale(v, nr)
            else if (if op.Plug? && op.nr == nr then !op.accepted else was) then Missing(v, nr)
            else Truthful(v, nr)
  {
    hide Known, Do, Stale, DevIdAt, Disks.DevId;
    if op.nr != nr {
      OthersUntouched(w, op, drive, device, nr);
    } else if was {
      OwnMissing(w, op, drive, device);
    } else {
      OwnTruthful(w, op, drive, device);
    }
  }

  lemma TruthfulElsewhere(w: World, op: Op, drive: string, device: string, nr: nat)
    requires Known(w) && Truthful(w, nr) && op.nr != nr
    ensures Truthful(Do(w, op, drive, device), nr)
  {
    hide DevIdAt, Disks.DevId, Do;
    OthersUntouched(w, op, drive, device, nr);
  }

  lemma BootKnown(disks: set<nat>, nr: nat)
    ensures Known(Booted(disks)) && (nr in disks ==> Truthful(Booted(disks), nr))
  {
    var w := Booted(disks);
    forall n | n in w.at
      ensures exists g | 0 <= g <= StateOf(w, n).gen :: w.at[n] == DevIdAt(n, g)
    {
      assert Disks.DevId(n) + "" == Disks.DevId(n);
      assert w.at[n] == DevIdAt(n, 0);
    }
  }

  /** From boot, for a disk that is there: the device_del the next unplug sends
      names the device qemu has, and the unplug succeeds, exactly when the disk was
      never plugged while present. */
  lemma UnplugNamesAttachedIff(disks: set<nat>, ops: seq<Op>, drives: nat -> string, devices: nat -> string, nr: nat)
    requires nr in disks && nr in Run(Booted(disks), ops, drives, devices).at
    ensures var w := Run(Booted(disks), ops, drives, devices);
            var v := Do(w, Unplug(nr), drives(nr), devices(nr));
            && |v.sent| == |w.sent| + 1 && v.sent[|w.sent|].DeviceDel?
            && (v.sent[|w.sent|].id == w.at[nr] <==> !PlugsPresent(Booted(disks), ops, drives, devices, nr))
            && (!Fails(w, Unplug(nr)) <==> !PlugsPresent(Booted(disks), ops, drives, devices, nr))
            && (!Fails(w, Unplug(nr)) ==> nr !in v.at && StateOf(v, nr).gone)
  {
    BootKnown(disks, nr);
    TruthfulIff(Booted(disks), ops, drives, devices, nr, false);
    var w := Run(Booted(disks), ops, drives, devices);
    hide Run, Booted, PlugsPresent, LastRefused, DevIdAt, Disks.DevId, Known;
    if PlugsPresent(Booted(disks), ops, drives, devices, nr) {
      StaleNotTruthful(w, nr);
    }
  }

  /** Plugging a disk that is there: qemu refuses the second device, the wait finds the
      first one and is content, and no unplug will ever work again. */
  lemma PlugPresentMisleads(disks: set<nat>, drives: nat -> string, devices: nat -> string, nr: nat)
    requires nr in disks
    ensures var w := Run(Booted(disks), [Plug(nr, true)], drives, devices);
            !Fails(Booted(disks), Plug(nr, true)) && nr in w.at && !Truthful(w, nr) && Fails(w, Unplug(nr))
  {
    BootKnown(disks, nr);
    var w := Booted(disks);
    assert [Plug(nr, true)][1..] == [];
    assert Run(w, [Plug(nr, true)], drives, devices) == Do(w, Plug(nr, true), drives(nr), devices(nr));
    DoKeepsKnown(w, Plug(nr, true), drives(nr), devices(nr));
    OwnTruthful(w, Plug(nr, true), drives(nr), devices(nr));
    StaleNotTruthful(Do(w, Plug(nr, true), drives(nr), devices(nr)), nr);
  }

  // --- no id twice ---

  /** Every id handed out is new: of a generation that disk had not had. */
  ghost predicate Dated(w: World) {
    && (forall i | 0 <= i < |w.sent| && !w.sent[i].DeviceDel? :: 1 <= w.sent[i].gen <= StateOf(w, w.sent[i].nr).gen)
    && forall i, j | 0 <= i < j < |w.sent| && !w.sent[i].DeviceDel? && !w.sent[j].DeviceDel?
                     && w.sent[i].DriveAdd? == w.sent[j].DriveAdd? ::
         (w.sent[i].nr, w.sent[i].gen) != (w.sent[j].nr, w.sent[j].gen)
  }

  lemma DoKeepsDated(w: World, op: Op, drive: string, device: string)
    requires Dated(w)
    ensures Dated(Do(w, op, drive, device))
  {
    hide DevIdAt, Disks.DevId, DriveAt, DeviceAt, Deleted, Added;
    var v := Do(w, op, drive, device);
    forall i | 0 <= i < |v.sent| && !v.sent[i].DeviceDel?
      ensures 1 <= v.sent[i].gen <= StateOf(v, v.sent[i].nr).gen
    {
      assert i < |w.sent| ==> v.sent[i] == w.sent[i];
    }
    forall i, j | 0 <= i < j < |v.sent| && !v.sent[i].DeviceDel? && !v.sent[j].DeviceDel?
                  && v.sent[i].DriveAdd? == v.sent[j].DriveAdd?
      ensures (v.sent[i].nr, v.sent[i].gen) != (v.sent[j].nr, v.sent[j].gen)
    {
      assert i < |w.sent| ==> v.sent[i] == w.sent[i];
      assert j < |w.sent| ==> v.sent[j] == w.sent[j];
    }
  }

  lemma {:induction false} RunKeepsDated(w: World, ops: seq<Op>, drives: nat -> string, devices: nat -> string)
    requires Dated(w)
    ensures Dated(Run(w, ops, drives, devices))
    decreases |ops|
  {
    if ops != [] {
      hide Do, Dated;
      DoKeepsDated(w, ops[0], drives(ops[0].nr), devices(ops[0].nr));
      RunKeepsDated(Do(w, ops[0], drives(ops[0].nr), devices(ops[0].nr)), ops[1..], drives, devices);
    }
  }

  // --- the ids in the text that is sent ---

  function FieldOf(fields: seq<string>, nr: nat): string {
    if nr < |fields| then fields[nr] else ""
  }

  /** The id field of a spec: the third of a drive's fields, the last of a device's. */
  function IdField(c: Command): string
    requires !c.DeviceDel?
  {
    var fields := Split(c.spec, ',');
    if c.DriveAdd? then FieldOf(fields, 2) else fields[|fields| - 1]
  }

  lemma {:induction false} SplitAround(x: string, y: string)
    ensures Split(x + [','] + y, ',') == Split(x, ',') + Split(y, ',')
  {
    var s := x + [','] + y;
    if x == [] {
      assert s[1..] == y && s[0] == ',';
    } else {
      assert s[1..] == x[1..] + [','] + y && s[0] == x[0];
      SplitAround(x[1..], y);
    }
  }

  lemma OneField(x: string)
    requires ',' !in x
    ensures Split(x, ',') == [x]
  {
    SplitJoin([x], ',');
  }

  lemma DriveIdField(id: string, arg: string)
    requires ',' !in id
    ensures FieldOf(Split(Disks.DriveSpec(id, arg), ','), 2) == "id=" + id
  {
    hide Split;
    var a, b, c := "if=none", "format=raw", "id=" + id;
    OneField(a);
    OneField(b);
    OneField(c);
    SplitAround(a, b);
    SplitAround(a + [','] + b, c);
    SplitAround(a + [','] + b + [','] + c, arg);
    assert Disks.DriveSpec(id, arg) == a + [','] + b + [','] + c + [','] + arg;
  }

  /** What comes before the id of a device, less its comma. */
  lemma DeviceFront(bus: Disks.Bus, nr: nat, disk: string, dev: string) returns (front: string)
    ensures Disks.DeviceSpec(bus, nr, disk, dev) == front + [','] + ("id=" + dev)
  {
    if nr == 0 {
      front := "virtio-blk-pci,drive=" + disk;
    } else if bus.VirtioBlk? {
      hide Disks.Hex, Decimal;
      var place := Disks.Place(bus, nr);
      assert place == place[..|place| - 1] + [','];
      front := Disks.Head(bus, nr) + ("drive=" + disk + ",") + place[..|place| - 1];
    } else {
      front := Disks.Head(bus, nr) + ("drive=" + disk);
    }
  }

  lemma DeviceIdField(bus: Disks.Bus, nr: nat, disk: string, dev: string)
    requires ',' !in dev
    ensures var fields := Split(Disks.DeviceSpec(bus, nr, disk, dev), ',');
            fields[|fields| - 1] == "id=" + dev
  {
    hide Split, Disks.DeviceSpec;
    var front := DeviceFront(bus, nr, disk, dev);
    OneField("id=" + dev);
    SplitAround(front, "id=" + dev);
  }

  lemma NoCommas(nr: nat, gen: nat)
    ensures ',' !in DiskIdAt(nr, gen) && ',' !in DevIdAt(nr, gen)
  {
    assert !IsDigit(',');
    assert ',' !in Decimal(nr) && ',' !in Suffix(gen);
  }

  /** A machine as start_vm boots it: the calls that attached its disks, no newline in
      their arguments. */
  datatype Machine = Machine(bus: Disks.Bus, root: string, rest: seq<Disks.Call>)

  function CallsOf(m: Machine): seq<Disks.Call> {
    [Disks.QemuDisk(m.root)] + m.rest
  }

  predicate Sound(m: Machine) {
    forall i | 0 <= i < |CallsOf(m)| && CallsOf(m)[i].QemuDisk? :: NL !in CallsOf(m)[i].arg
  }

  /** What the guest reads out of the lists for a disk. */
  function DriveOf(m: Machine, nr: nat): string {
    FieldOf(Fields(Listed(Disks.DriveFields(CallsOf(m)))), nr)
  }

  function DeviceOf(m: Machine, nr: nat): string {
    FieldOf(Fields(Listed(Disks.DeviceFields(m.bus, CallsOf(m)))), nr)
  }

  function DrivesOf(m: Machine): nat -> string {
    (nr: nat) => DriveOf(m, nr)
  }

  function DevicesOf(m: Machine): nat -> string {
    (nr: nat) => DeviceOf(m, nr)
  }

  /** Only disks other than root are plugged: a pmem has no drive to put back. */
  predicate PlugsDisks(m: Machine, ops: seq<Op>) {
    forall i | 0 <= i < |ops| && ops[i].Plug? :: 0 < ops[i].nr < |CallsOf(m)| && CallsOf(m)[ops[i].nr].QemuDisk?
  }

  /** What is sent is the spec the disk booted with, under the ids of the generation. */
  predicate SpecRight(m: Machine, c: Command) {
    match c
    case DeviceDel(_) => true
    case DriveAdd(nr, gen, spec) =>
      nr < |CallsOf(m)| && CallsOf(m)[nr].QemuDisk? && spec == Disks.DriveSpec(DiskIdAt(nr, gen), CallsOf(m)[nr].arg)
    case DeviceAdd(nr, gen, spec) => spec == Disks.DeviceSpec(m.bus, nr, DiskIdAt(nr, gen), DevIdAt(nr, gen))
  }

  predicate SpecsRight(m: Machine, w: World) {
    forall i | 0 <= i < |w.sent| :: SpecRight(m, w.sent[i])
  }

  lemma DoSendsRight(m: Machine, w: World, op: Op)
    requires Sound(m) && SpecsRight(m, w) && PlugsDisks(m, [op])
    ensures SpecsRight(m, Do(w, op, DriveOf(m, op.nr), DeviceOf(m, op.nr)))
  {
    var v := Do(w, op, DriveOf(m, op.nr), DeviceOf(m, op.nr));
    if op.Plug? {
      assert [op][0].Plug?;
      ReplugsSameDisk(m.bus, m.root, m.rest, op.nr, StateOf(w, op.nr).gen + 1);
    }
    hide DriveAt, DeviceAt, Fields, Listed, Disks.DriveFields, Disks.DeviceFields, Disks.DriveSpec, Disks.DeviceSpec,
         DiskIdAt, DevIdAt, Disks.DevId;
    forall i | 0 <= i < |v.sent|
      ensures SpecRight(m, v.sent[i])
    {
      assert i < |w.sent| ==> v.sent[i] == w.sent[i];
    }
  }

  lemma {:induction false} RunSendsRight(m: Machine, w: World, ops: seq<Op>)
    requires Sound(m) && SpecsRight(m, w) && PlugsDisks(m, ops)
    ensures SpecsRight(m, Run(w, ops, DrivesOf(m), DevicesOf(m)))
    decreases |ops|
  {
    if ops != [] {
      assert ops[..1] == [ops[0]];
      assert forall i | 0 <= i < |ops[1..]| :: ops[1..][i] == ops[i + 1];
      DoSendsRight(m, w, ops[0]);
      hide Do, SpecsRight, Sound, DriveOf, DeviceOf;
      RunSendsRight(m, Do(w, ops[0], DriveOf(m, ops[0].nr), DeviceOf(m, ops[0].nr)), ops[1..]);
    }
  }

  lemma IdFieldIs(m: Machine, c: Command)
    requires !c.DeviceDel? && SpecRight(m, c)
    ensures IdField(c) == "id=" + if c.DriveAdd? then DiskIdAt(c.nr, c.gen) else DevIdAt(c.nr, c.gen)
  {
    hide Split, DiskIdAt, DevIdAt, Disks.DriveSpec, Disks.DeviceSpec;
    NoCommas(c.nr, c.gen);
    if c.DriveAdd? {
      DriveIdField(DiskIdAt(c.nr, c.gen), CallsOf(m)[c.nr].arg);
    } else {
      DeviceIdField(m.bus, c.nr, DiskIdAt(c.nr, c.gen), DevIdAt(c.nr, c.gen));
    }
  }

  /** The specs of the command line the machine booted with. */
  function BootSpec(m: Machine, nr: nat, drive: bool): Command
    requires nr < |CallsOf(m)|
  {
    if drive then DriveAdd(nr, 0, Disks.DriveField(nr, CallsOf(m)[nr]))
    else DeviceAdd(nr, 0, Disks.DeviceField(m.bus, nr, CallsOf(m)[nr]))
  }

  /** Over any calls, for a machine start_vm booted: every spec sent is the disk's own
      under fresh ids; the id fields of two drives, or of two devices, that were sent
      are never the same text, nor the text of one on the command line. */
  lemma IdsNeverReused(m: Machine, disks: set<nat>, ops: seq<Op>, i: nat, j: nat, nr: nat)
    requires Sound(m) && PlugsDisks(m, ops) && nr < |CallsOf(m)| && CallsOf(m)[nr].QemuDisk?
    requires var sent := Run(Booted(disks), ops, DrivesOf(m), DevicesOf(m)).sent;
             i < j < |sent| && !sent[i].DeviceDel? && !sent[j].DeviceDel? && sent[i].DriveAdd? == sent[j].DriveAdd?
    ensures var sent := Run(Booted(disks), ops, DrivesOf(m), DevicesOf(m)).sent;
            && SpecRight(m, sent[i]) && SpecRight(m, sent[j])
            && IdField(sent[i]) != IdField(sent[j])
            && IdField(sent[i]) != IdField(BootSpec(m, nr, sent[i].DriveAdd?))
            && IdField(sent[j]) != IdField(BootSpec(m, nr, sent[j].DriveAdd?))
  {
    RunKeepsDated(Booted(disks), ops, DrivesOf(m), DevicesOf(m));
    RunSendsRight(m, Booted(disks), ops);
    var sent := Run(Booted(disks), ops, DrivesOf(m), DevicesOf(m)).sent;
    hide Run, Booted, IdField, DiskIdAt, DevIdAt, SpecRight, Sound;
    var a, b := sent[i], sent[j];
    DistinctFields(m, a, b);
    var boot := BootSpec(m, nr, a.DriveAdd?);
    BootRight(m, nr, a.DriveAdd?);
    DistinctFields(m, a, boot);
    DistinctFields(m, b, boot);
  }

  lemma BootRight(m: Machine, nr: nat, drive: bool)
    requires nr < |CallsOf(m)| && CallsOf(m)[nr].QemuDisk?
    ensures SpecRight(m, BootSpec(m, nr, drive))
  {
    assert Disks.DiskId(nr) + "" == Disks.DiskId(nr) && Disks.DevId(nr) + "" == Disks.DevId(nr);
    hide Disks.DriveSpec, Disks.DeviceSpec, Disks.DiskId, Disks.DevId;
  }

  lemma DistinctFields(m: Machine, a: Command, b: Command)
    requires !a.DeviceDel? && !b.DeviceDel? && a.DriveAdd? == b.DriveAdd? && SpecRight(m, a) && SpecRight(m, b)
    requires (a.nr, a.gen) != (b.nr, b.gen)
    ensures IdField(a) != IdField(b)
  {
    hide IdField, DiskIdAt, DevIdAt, SpecRight;
    IdFieldIs(m, a);
    IdFieldIs(m, b);
    var x := if a.DriveAdd? then DiskIdAt(a.nr, a.gen) else DevIdAt(a.nr, a.gen);
    var y := if b.DriveAdd? then DiskIdAt(b.nr, b.gen) else DevIdAt(b.nr, b.gen);
    if IdField(a) == IdField(b) {
      Disks.SamePrefix("id=", x, y);
      IdsInjective(a.nr, a.gen, b.nr, b.gen);
    }
  }

  // --- the shell functions ---

  datatype Trouble = NoBase | NotThere | NoSlots | NoSpec | TimedOut

  class Guest {
    const base: Option<nat>
    const devices: string
    const drives: string
    var states: map<nat, DevState>
    var at: map<nat, string>          // qemu's side, seen only as a device node that is there or not
    var sent: seq<Command>

    ghost function Now(): World
      reads this
    {
      World(states, at, sent)
    }

    constructor (base: Option<nat>, devices: string, drives: string, disks: set<nat>)
      ensures this.base == base && this.devices == devices && this.drives == drives && Now() == Booted(disks)
    {
      this.base, this.devices, this.drives := base, devices, drives;
      states, at, sent := map[], map nr | nr in disks :: Disks.DevId(nr), [];
    }

    /** tests/prelude.sh scratch_dev_unplug. */
    method ScratchDevUnplug(index: nat, slots: bool) returns (r: Result<(), Trouble>)
      modifies this
      ensures r == if base.None? then Err(NoBase)
                   else if base.value + index !in old(at) then Err(NotThere)
                   else if !slots then Err(NoSlots)
                   else if Fails(old(Now()), Unplug(base.value + index)) then Err(TimedOut)
                   else Ok(())
      ensures Now() == if base.Some? && slots then Do(old(Now()), Unplug(base.value + index), "", "") else old(Now())
    {
      if base.None? {
        return Err(NoBase);
      }
      var nr := base.value + index;
      if nr !in at {
        return Err(NotThere);
      }
      if !slots {
        return Err(NoSlots);
      }
      var s := if nr in states then states[nr] else DevState(false, Disks.DevId(nr), 0);
      sent := sent + [DeviceDel(s.id)];
      at := Deleted(at, s.id);
      if nr in at {
        return Err(TimedOut);
      }
      states := states[nr := DevState(true, s.id, s.gen)];
      return Ok(());
    }

    predicate HasSpec(nr: nat) {
      FieldOf(Fields(devices), nr) != "" && FieldOf(Fields(drives), nr) != ""
    }

    /** tests/prelude.sh scratch_dev_plug: a pmem has no drive to put back; the state
        file is written before the wait. */
    method ScratchDevPlug(index: nat, accepted: bool) returns (r: Result<(), Trouble>)
      modifies this
      ensures r == if base.None? then Err(NoBase)
                   else if !HasSpec(base.value + index) then Err(NoSpec)
                   else if Fails(old(Now()), Plug(base.value + index, accepted)) then Err(TimedOut)
                   else Ok(())
      ensures base.None? || !HasSpec(base.value + index) ==> Now() == old(Now())
      ensures base.Some? && HasSpec(base.value + index) ==>
                var nr := base.value + index;
                Now() == Do(old(Now()), Plug(nr, accepted), FieldOf(Fields(drives), nr), FieldOf(Fields(devices), nr))
    {
      hide DriveAt, DeviceAt, DevIdAt, Fields, Disks.DevId;
      if base.None? {
        return Err(NoBase);
      }
      var specs, backends := Fields(devices), Fields(drives);
      var nr := base.value + index;
      var spec := if nr < |specs| then specs[nr] else "";
      var drive := if nr < |backends| then backends[nr] else "";
      if spec == "" || drive == "" {
        return Err(NoSpec);
      }
      var gen := (if nr in states then states[nr].gen else 0) + 1;
      var drive2 := DriveAt(drive, nr, gen);
      var spec2 := DeviceAt(spec, nr, gen);
      sent := sent + [DriveAdd(nr, gen, drive2)];
      sent := sent + [DeviceAdd(nr, gen, spec2)];
      if accepted {
        at := Added(at, nr, DevIdAt(nr, gen));
      }
      states := states[nr := DevState(false, DevIdAt(nr, gen), gen)];
      assert sent == old(sent) + [DriveAdd(nr, gen, drive2), DeviceAdd(nr, gen, spec2)];
      if nr !in at {
        return Err(TimedOut);
      }
      return Ok(());
    }

    /** The plug of a disk left gone works. */
    predicate ComesBack(w: World, nr: nat, accepts: nat -> bool) {
      HasSpec(nr) && !Fails(w, Plug(nr, accepts(nr)))
    }

    /** tests/prelude.sh scratch_dev_replug_all: what was left gone comes back, the
        rest is left alone, and truthful state files stay truthful, as long as qemu
        takes what it is given; the first plug that fails ends it. */
    method ScratchDevReplugAll(accepts: nat -> bool) returns (r: Result<(), Trouble>)
      requires base.Some? && Known(Now()) && forall nr | nr in states :: base.value <= nr
      modifies this
      ensures Known(Now()) && states.Keys == old(states.Keys)
      ensures r.Ok? ==> forall nr | nr in states :: !states[nr].gone
      ensures forall nr | nr in states && !old(states)[nr].gone :: states[nr] == old(states)[nr]
      ensures r.Ok? ==> forall nr | Truthful(old(Now()), nr) :: Truthful(Now(), nr)
      ensures r.Err? <==> exists nr | nr in old(states) && old(states)[nr].gone :: !ComesBack(old(Now()), nr, accepts)
    {
      hide Known, Truthful, DevIdAt, DriveAt, DeviceAt, Fields, HasSpec, FieldOf, Fails;
      var todo := states.Keys;
      while todo != {}
        invariant todo <= states.Keys == old(states.Keys) && Known(Now())
        invariant forall nr | nr in states && nr !in todo :: !states[nr].gone
        invariant forall nr | nr in states && (nr in todo || !old(states)[nr].gone) :: states[nr] == old(states)[nr]
        invariant forall nr | Truthful(old(Now()), nr) :: Truthful(Now(), nr)
        invariant forall nr | nr in todo :: nr in at <==> nr in old(at)
        invariant forall nr | nr in states && nr !in todo && old(states)[nr].gone :: ComesBack(old(Now()), nr, accepts)
        decreases todo
      {
        var nr :| nr in todo;
        todo := todo - {nr};
        if states[nr].gone {
          ghost var before := Now();
          PlugFailsAlike(before, old(Now()), nr, accepts(nr));
          r := ScratchDevPlug(nr - base.value, accepts(nr));
          if r.Err? {
            if HasSpec(nr) {
              DoKeepsKnown(before, Plug(nr, accepts(nr)), FieldOf(Fields(drives), nr), FieldOf(Fields(devices), nr));
              OthersKept(before, nr, accepts(nr), FieldOf(Fields(drives), nr), FieldOf(Fields(devices), nr));
            }
            return;
          }
          PlugGone(before, nr, accepts(nr), FieldOf(Fields(drives), nr), FieldOf(Fields(devices), nr));
        }
      }
      r := Ok(());
    }
  }

  lemma PlugFailsAlike(a: World, b: World, nr: nat, accepted: bool)
    ensures (nr in a.at <==> nr in b.at) ==> (Fails(a, Plug(nr, accepted)) <==> Fails(b, Plug(nr, accepted)))
  {
  }

  lemma OthersKept(w: World, nr: nat, accepted: bool, drive: string, device: string)
    requires nr in w.states
    ensures var v := Do(w, Plug(nr, accepted), drive, device);
            v.states.Keys == w.states.Keys && forall n | n in w.states && n != nr :: v.states[n] == w.states[n]
  {
  }

  lemma PlugGone(w: World, nr: nat, accepted: bool, drive: string, device: string)
    requires Known(w) && nr in w.states && w.states[nr].gone && !Fails(w, Plug(nr, accepted))
    ensures var v := Do(w, Plug(nr, accepted), drive, device);
            && Known(v) && v.states.Keys == w.states.Keys && !v.states[nr].gone
            && (forall n | n in w.states && n != nr :: v.states[n] == w.states[n])
            && (forall n | n != nr :: n in v.at <==> n in w.at)
            && forall n | Truthful(w, n) :: Truthful(v, n)
  {
    hide DevIdAt, DriveAt, DeviceAt;
    var op := Plug(nr, accepted);
    DoKeepsKnown(w, op, drive, device);
    if Truthful(w, nr) {
      OwnTruthful(w, op, drive, device);
    }
    forall n | Truthful(w, n) && n != nr
      ensures Truthful(Do(w, op, drive, device), n)
    {
      TruthfulElsewhere(w, op, drive, device, n);
    }
  }
}
