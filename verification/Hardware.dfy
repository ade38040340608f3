/** The inventory view of the same structure table. */
module Hardware {
  import opened Wrappers
  import opened Binary
  import opened Smbios

  const BIOS := 0
  const PROCESSOR := 4
  const MEMORY := 17
  const TWO64 := 0x1_0000_0000_0000_0000

  type Text = seq<byte>

  datatype System = System(man: Text, product: Text, version: Text, serial: Text)
  datatype Firmware = Firmware(vendor: Text, version: Text, date: Text)
  datatype Board = Board(man: Text, product: Text, version: Text, serial: Text, asset: Text)
  datatype Case = Case(man: Text, version: Text, serial: Text, asset: Text)
  datatype Cpu = Cpu(man: Text, version: Text, max: Option<nat>, current: Option<nat>)

  /** What the walk has put together; numbers stand for their decimal text, None for an empty one. */
  datatype Inventory = Inventory(
    sys: System, bios: Firmware, board: Board, chassis: Case, caseType: Option<nat>, cpu: Cpu, memKB: nat)

  const NO_SYSTEM := System([], [], [], [])
  const NO_FIRMWARE := Firmware([], [], [])
  const NO_BOARD := Board([], [], [], [], [])
  const NO_CASE := Case([], [], [], [])
  const NO_CPU := Cpu([], [], None, None)
  const NOTHING := Inventory(NO_SYSTEM, NO_FIRMWARE, NO_BOARD, NO_CASE, None, NO_CPU, 0)

  /** A central processor in an occupied socket, where the structure is long enough to say. */
  predicate PopulatedCPU(s: Structure) {
    |s.formatted| <= 0x18 || (s.formatted[0x05] == 3 && (s.formatted[0x18] / 0x40) % 2 == 1)
  }

  function Mhz(s: Structure, at: nat): Option<nat> {
    if |s.formatted| < at + 2 || Le16(s.formatted, at) == 0 then None else Some(Le16(s.formatted, at))
  }

  /** One memory device's size in KB: bit 15 of the size chooses the unit, 0x7FFF the extended field. */
  function DeviceKB(s: Structure): nat {
    if |s.formatted| < 0x0E then 0
    else
      var size := Le16(s.formatted, 0x0C);
      if size == 0 || size == 0xFFFF then 0
      else if size == 0x7FFF then
        if |s.formatted| < 0x20 then 0 else (Le32(s.formatted, 0x1C) % 0x8000_0000) * 1024
      else if size >= 0x8000 then size - 0x8000
      else size * 1024
  }

  function SystemOf(s: Structure): System {
    System(Str(s, 0x04), Str(s, 0x05), Str(s, 0x06), Str(s, 0x07))
  }

  function FirmwareOf(s: Structure): Firmware {
    Firmware(Str(s, 0x04), Str(s, 0x05), Str(s, 0x08))
  }

  function BoardOf(s: Structure): Board {
    Board(Str(s, 0x04), Str(s, 0x05), Str(s, 0x06), Str(s, 0x07), Str(s, 0x08))
  }

  function CaseOf(s: Structure): Case {
    Case(Str(s, 0x04), Str(s, 0x06), Str(s, 0x07), Str(s, 0x08))
  }

  function CpuOf(s: Structure): Cpu {
    Cpu(Str(s, 0x07), Str(s, 0x10), Mhz(s, 0x14), Mhz(s, 0x16))
  }

  /** The memory sum is kept in 64 bits. */
  function Add(hw: Inventory, s: Structure): Inventory {
    var typ := Type(s);
    if typ == BIOS then hw.(bios := FirmwareOf(s))
    else if typ == SYSTEM then hw.(sys := SystemOf(s))
    else if typ == BASEBOARD then hw.(board := BoardOf(s))
    else if typ == CHASSIS then
      hw.(chassis := CaseOf(s),
          caseType := if |s.formatted| > 0x05 then Some(s.formatted[0x05] % 0x80) else hw.caseType)
    else if typ == PROCESSOR then
      if hw.cpu.version == [] && PopulatedCPU(s) then hw.(cpu := CpuOf(s)) else hw
    else if typ == MEMORY then hw.(memKB := (hw.memKB + DeviceKB(s)) % TWO64)
    else hw
  }

  function AddAll(hw: Inventory, ss: seq<Structure>): Inventory
    decreases |ss|
  {
    if ss == [] then hw else AddAll(Add(hw, ss[0]), ss[1..])
  }

  /** The inventory and its memory in whole megabytes, none for nothing reported; or the refusal. */
  datatype Taken = Taken(hw: Inventory, mem: Option<nat>) | Untaken(why: Refusal)

  function TotalMB(kb: nat): Option<nat> {
    if kb == 0 then None else Some(kb / 1024)
  }

  function Take(hw: Inventory, w: Walked): Taken {
    match w
    case Refused(e) => Untaken(e)
    case Walked(ss) => Taken(AddAll(hw, ss), TotalMB(AddAll(hw, ss).memKB))
  }

  lemma AddCons(hw: Inventory, s: Structure, ss: seq<Structure>)
    ensures AddAll(hw, [s] + ss) == AddAll(Add(hw, s), ss)
  {
    assert ([s] + ss)[1..] == ss;
  }

  lemma AddNone(hw: Inventory)
    ensures AddAll(hw, []) == hw
  {
  }

  /** Walks the table as Parse does, so it refuses the same tables for the same reasons. */
  method ParseHardware(table: seq<byte>) returns (r: Taken)
    ensures r == Take(NOTHING, Walk(table, 0))
  {
    hide Walk, StringsFrom, Add, AddAll;
    var hw, off := NOTHING, 0;
    ghost var goal := Take(hw, Walk(table, 0));
    assert table[0..] == table;
    while off + 4 <= |table|
      invariant off <= |table| && goal == Take(hw, Walk(table[off..], off))
    {
      WalkStep(table, off);
      var length := table[off + 1];
      if length < 4 || off + length > |table| {
        return Untaken(BadLength(length, off));
      }
      var formatted := table[off..off + length];
      var strs, next, why := ReadStrings(table, off + length);
      if why.Some? {
        WalkNext(table, off, BadSet(why.value), 0);
        return Untaken(why.value);
      }
      WalkNext(table, off, Strings(strs, table[next..]), next);
      var s := Structure(formatted, strs);
      if Walk(table[next..], next).Walked? {
        AddCons(hw, s, Walk(table[next..], next).ss);
      }
      AddCons(hw, s, []);
      AddNone(Add(hw, s));
      assert [s] + [] == [s];
      hw := AddOne(hw, s);
      if table[off] == END {
        return Taken(hw, TotalMB(hw.memKB));
      }
      off := next;
    }
    WalkStep(table, off);
    AddNone(hw);
    r := Taken(hw, TotalMB(hw.memKB));
  }

  /** One structure's fields, put into the inventory. */
  method AddOne(hw: Inventory, s: Structure) returns (r: Inventory)
    requires s.formatted != []
    ensures r == Add(hw, s)
  {
    r := hw;
    match s.formatted[0] {
      case 0 => r := r.(bios := FirmwareOf(s));
      case 1 => r := r.(sys := SystemOf(s));
      case 2 => r := r.(board := BoardOf(s));
      case 3 =>
        r := r.(chassis := CaseOf(s));
        if |s.formatted| > 0x05 {
          r := r.(caseType := Some(s.formatted[0x05] % 0x80));
        }
      case 4 =>
        if r.cpu.version == [] && PopulatedCPU(s) {
          r := r.(cpu := CpuOf(s));
        }
      case 17 => r := r.(memKB := (r.memKB + DeviceKB(s)) % TWO64);
      case _ =>
    }
  }

  /** Both views accept the same tables, and refuse the others for the same reason. */
  lemma SameRefusals(table: seq<byte>, swap: bool)
    ensures Take(NOTHING, Walk(table, 0)).Untaken? <==> Identify(NOBODY, Walk(table, 0), swap).Bad?
    ensures Take(NOTHING, Walk(table, 0)).Untaken? ==>
      Take(NOTHING, Walk(table, 0)).why == Identify(NOBODY, Walk(table, 0), swap).why
  {
  }

  /* ----- what the fields are ----- */

  lemma {:induction false} AddSnoc(hw: Inventory, ss: seq<Structure>, s: Structure)
    ensures AddAll(hw, ss + [s]) == Add(AddAll(hw, ss), s)
    decreases |ss|
  {
    hide Add;
    if ss == [] {
      assert ss + [s] == [s] && [s][1..] == ss;
    } else {
      assert (ss + [s])[1..] == ss[1..] + [s];
      AddSnoc(Add(hw, ss[0]), ss[1..], s);
    }
  }

  /** The last structure of each kind wins; the chassis type is that of the last chassis that has one. */
  ghost predicate LastOfEach(hw: Inventory, ss: seq<Structure>) {
    && hw.sys == (if Last(ss, SYSTEM, 0).None? then NO_SYSTEM else SystemOf(Last(ss, SYSTEM, 0).value))
    && hw.bios == (if Last(ss, BIOS, 0).None? then NO_FIRMWARE else FirmwareOf(Last(ss, BIOS, 0).value))
    && hw.board == (if Last(ss, BASEBOARD, 0).None? then NO_BOARD else BoardOf(Last(ss, BASEBOARD, 0).value))
    && hw.chassis == (if Last(ss, CHASSIS, 0).None? then NO_CASE else CaseOf(Last(ss, CHASSIS, 0).value))
    && hw.caseType == (if Last(ss, CHASSIS, 6).None? then None
                       else Some(Last(ss, CHASSIS, 6).value.formatted[5] % 0x80))
  }

  lemma LastStays(hw: Inventory, ss: seq<Structure>, s: Structure)
    requires LastOfEach(hw, ss)
    ensures LastOfEach(Add(hw, s), ss + [s])
  {
    hide SystemOf, FirmwareOf, BoardOf, CaseOf, CpuOf, PopulatedCPU, DeviceKB;
    assert (ss + [s])[..|ss|] == ss;
  }

  lemma {:induction false} LastOfEachWins(ss: seq<Structure>)
    ensures LastOfEach(AddAll(NOTHING, ss), ss)
  {
    hide LastOfEach, Add;
    if ss == [] {
      NothingYet();
      AddNone(NOTHING);
    } else {
      var k := |ss| - 1;
      assert ss == ss[..k] + [ss[k]];
      AddSnoc(NOTHING, ss[..k], ss[k]);
      LastOfEachWins(ss[..k]);
      LastStays(AddAll(NOTHING, ss[..k]), ss[..k], ss[k]);
    }
  }

  lemma NothingYet()
    ensures LastOfEach(NOTHING, [])
  {
  }

  predicate IsCpu(s: Structure) {
    Type(s) == PROCESSOR && PopulatedCPU(s)
  }

  predicate NamedCpu(s: Structure) {
    IsCpu(s) && CpuOf(s).version != []
  }

  /** The first of the named processors, otherwise the last of the nameless. */
  predicate ChoosesCpu(ss: seq<Structure>, i: nat) {
    && i < |ss| && IsCpu(ss[i])
    && (if NamedCpu(ss[i]) then forall j :: 0 <= j < i ==> !NamedCpu(ss[j])
        else forall j :: 0 <= j < |ss| ==> !NamedCpu(ss[j]) && (IsCpu(ss[j]) ==> j <= i))
  }

  lemma {:induction false} CpuIsFirstNamed(ss: seq<Structure>) returns (i: nat)
    ensures (exists j :: 0 <= j < |ss| && IsCpu(ss[j])) ==>
      ChoosesCpu(ss, i) && AddAll(NOTHING, ss).cpu == CpuOf(ss[i])
    ensures (forall j :: 0 <= j < |ss| ==> !IsCpu(ss[j])) ==> AddAll(NOTHING, ss).cpu == NO_CPU
  {
    hide AddAll, CpuOf, PopulatedCPU;
    i := 0;
    if ss == [] {
      AddNone(NOTHING);
    } else {
      var k, last := |ss| - 1, ss[|ss| - 1];
      assert ss == ss[..k] + [last];
      AddSnoc(NOTHING, ss[..k], last);
      var hw := AddAll(NOTHING, ss[..k]);
      i := CpuIsFirstNamed(ss[..k]);
      AddCpu(hw, last);
      assert forall j :: 0 <= j < k ==> ss[..k][j] == ss[j];
      if hw.cpu.version == [] && IsCpu(last) {
        i := k;
      }
    }
  }

  lemma AddCpu(hw: Inventory, s: Structure)
    ensures Add(hw, s).cpu == if hw.cpu.version == [] && IsCpu(s) then CpuOf(s) else hw.cpu
  {
  }

  /* ----- one memory device ----- */

  /** The sizes a memory device structure can state, in the units of DMTF DSP0134 section 7.18. */
  datatype DeviceSize = Empty | Unknown | Kilobytes(kb: nat) | Megabytes(mb: nat)

  /** The size word and the extended size; a module of 32 GB less a megabyte or more needs the latter. */
  function PutSize(s: DeviceSize): (nat, nat) {
    match s
    case Empty => (0, 0)
    case Unknown => (0xFFFF, 0)
    case Kilobytes(kb) => (0x8000 + kb, 0)
    case Megabytes(mb) => if mb < 0x7FFF then (mb, 0) else (0x7FFF, mb)
  }

  predicate Statable(s: DeviceSize) {
    match s
    case Kilobytes(kb) => kb < 0x7FFF
    case Megabytes(mb) => mb < 0x8000_0000
    case _ => true
  }

  function SizeKB(s: DeviceSize): nat {
    match s
    case Kilobytes(kb) => kb
    case Megabytes(mb) => 1024 * mb
    case _ => 0
  }

  /** A structure that states a size is read as that many kilobytes, an empty or unknown one as none. */
  lemma DeviceReads(s: Structure, size: DeviceSize)
    requires Statable(size) && |s.formatted| >= 0x0E && Le16(s.formatted, 0x0C) == PutSize(size).0
    requires PutSize(size).0 == 0x7FFF ==> |s.formatted| >= 0x20 && Le32(s.formatted, 0x1C) == PutSize(size).1
    ensures DeviceKB(s) == SizeKB(size)
  {
  }

  /* ----- the memory sum ----- */

  function SumKB(ss: seq<Structure>): nat {
    if ss == [] then 0 else SumKB(ss[..|ss| - 1]) + if Type(ss[|ss| - 1]) == MEMORY then DeviceKB(ss[|ss| - 1]) else 0
  }

  const MAX_TABLE := 0x1000_0000
  const TWO41 := 0x200_0000_0000

  lemma DeviceBound(s: Structure)
    ensures 34 * DeviceKB(s) <= |Encode(s)| * TWO41
  {
    if |s.formatted| >= 0x20 {
      assert DeviceKB(s) <= TWO41;
    } else if |s.formatted| >= 0x0E {
      assert DeviceKB(s) <= 0x800_0000;
    }
  }

  lemma {:induction false} EncodeSnoc(ss: seq<Structure>, s: Structure)
    ensures |EncodeAll(ss + [s])| == |EncodeAll(ss)| + |Encode(s)|
    decreases |ss|
  {
    hide Encode;
    if ss == [] {
      assert ss + [s] == [s] && [s][1..] == ss;
    } else {
      assert (ss + [s])[1..] == ss[1..] + [s];
      EncodeSnoc(ss[1..], s);
    }
  }

  lemma {:induction false} SumBound(ss: seq<Structure>)
    ensures 34 * SumKB(ss) <= |EncodeAll(ss)| * TWO41
  {
    if ss != [] {
      var k := |ss| - 1;
      hide DeviceKB, Encode;
      assert ss == ss[..k] + [ss[k]];
      EncodeSnoc(ss[..k], ss[k]);
      SumBound(ss[..k]);
      DeviceBound(ss[k]);
    }
  }

  lemma AddMemory(hw: Inventory, s: Structure)
    ensures Add(hw, s).memKB == if Type(s) == MEMORY then (hw.memKB + DeviceKB(s)) % TWO64 else hw.memKB
  {
  }

  lemma NoSum()
    ensures SumKB([]) == 0 && NOTHING.memKB == 0
  {
  }

  lemma SumSnoc(ss: seq<Structure>, s: Structure)
    ensures SumKB(ss + [s]) == SumKB(ss) + if Type(s) == MEMORY then DeviceKB(s) else 0
  {
    assert (ss + [s])[..|ss|] == ss;
  }

  lemma BoundFits(sum: nat, length: nat)
    requires 34 * sum <= length * TWO41 && length <= MAX_TABLE
    ensures sum < TWO64
  {
    assert length * TWO41 <= MAX_TABLE * TWO41;
  }

  lemma {:induction false} SumFits(ss: seq<Structure>)
    requires |EncodeAll(ss)| <= MAX_TABLE
    ensures SumKB(ss) < TWO64 && AddAll(NOTHING, ss).memKB == SumKB(ss)
  {
    hide Add, AddAll, DeviceKB, Encode, EncodeAll, SumKB, Type;
    SumBound(ss);
    BoundFits(SumKB(ss), |EncodeAll(ss)|);
    if ss == [] {
      AddNone(NOTHING);
      NoSum();
    } else {
      var k := |ss| - 1;
      assert ss == ss[..k] + [ss[k]];
      SumSnoc(ss[..k], ss[k]);
      EncodeSnoc(ss[..k], ss[k]);
      SumFits(ss[..k]);
      AddSnoc(NOTHING, ss[..k], ss[k]);
      AddMemory(AddAll(NOTHING, ss[..k]), ss[k]);
    }
  }

  /** On tables of up to 2^28 bytes the 64-bit sum is the true sum. */
  lemma MemoryIsTrueSum(table: seq<byte>)
    requires |table| <= MAX_TABLE && Walk(table, 0).Walked?
    ensures Take(NOTHING, Walk(table, 0)).mem == TotalMB(SumKB(Walk(table, 0).ss))
  {
    var tail := WalkWrites(table, 0);
    SumFits(Walk(table, 0).ss);
  }
}
