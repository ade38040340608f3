/** The writing side of firmware tables: how each version stores a UUID, where each kind of structure keeps its
    texts and numbers (DMTF DSP0134 section 7), and that both views read them back. */
module Layout {
  import opened Wrappers
  import opened Binary
  import opened Smbios
  import opened Hardware

  /* ----- the UUID ----- */

  /** Version a.b comes before version c.d. */
  predicate Before(a: int, b: int, c: int, d: int) {
    a < c || (a == c && b < d)
  }

  /** Since version 2.6 the first three fields of a UUID are stored with their least byte first. */
  function StoredIn(u: seq<byte>, major: int, minor: int): seq<byte>
    requires |u| == 16
  {
    if Before(major, minor, 2, 6) then u else [u[3], u[2], u[1], u[0], u[5], u[4], u[7], u[6]] + u[8..]
  }

  /** A table of any version whose last system structure with a UUID stores u prints the bytes of u in order. */
  lemma PrintsUuid(ss: seq<Structure>, tail: seq<byte>, u: seq<byte>, major: int, minor: int)
    requires Framed(ss, tail) && |u| == 16
    requires Last(ss, 1, 0x19).Some? && Last(ss, 1, 0x19).value.formatted[0x08..0x18] == StoredIn(u, major, minor)
    ensures var r := IdentityOf(EncodeAll(ss) + tail, major, minor);
      r.Parsed? && r.id.uuid == HexBytes(u[..4]) + "-" + HexBytes(u[4..6]) + "-" + HexBytes(u[6..8]) + "-" +
                                HexBytes(u[8..10]) + "-" + HexBytes(u[10..])
  {
    hide Walk, EncodeAll, Last, FormatUUID, HexBytes, Framed;
    var swap := Swaps(major, minor);
    IdentityOfEncoding(ss, tail, swap);
    UuidOrder(u, swap);
    assert StoredIn(u, major, minor) == Stored(u, swap);
  }

  /** The printed form of bytes, two lower-case digits each. */
  lemma ByteText(b: seq<byte>, x: byte)
    ensures HexBytes(b + [x]) == HexBytes(b) + [HexDigit(x / 16), HexDigit(x % 16)]
  {
    assert (b + [x])[..|b|] == b;
    TwoDigits(x);
  }

  lemma TwoDigits(x: byte)
    ensures Hex(x, 2) == [HexDigit(x / 16), HexDigit(x % 16)]
  {
    var high := x / 16;
    assert Hex(high, 1) == Hex(high / 16, 0) + [HexDigit(high % 16)];
    assert Hex(x, 2) == Hex(high, 1) + [HexDigit(x % 16)];
  }

  lemma TwoBytes(a: byte, b: byte)
    ensures HexBytes([a, b]) == [HexDigit(a / 16), HexDigit(a % 16), HexDigit(b / 16), HexDigit(b % 16)]
  {
    ByteText([], a);
    ByteText([a], b);
    assert [] + [a] == [a] && [a] + [b] == [a, b];
  }

  /** For instance. */
  lemma SampleText()
    ensures HexBytes([0x00, 0x1f]) == "001f" && HexBytes([0xa9, 0xe8]) == "a9e8"
  {
    hide HexBytes;
    TwoBytes(0x00, 0x1f);
    TwoBytes(0xa9, 0xe8);
  }

  /* ----- texts and numbers, each in its place ----- */

  /** The first four bytes of a structure. */
  function Header(typ: byte, length: byte, handle: (byte, byte)): seq<byte> {
    [typ, length, handle.0, handle.1]
  }

  function BiosStructure(vendor: Text, version: Text, date: Text, handle: (byte, byte), start: (byte, byte),
                         rest: seq<byte>): Structure
    requires 9 + |rest| < 0x100
  {
    Structure(Header(0, 9 + |rest|, handle) + [1, 2, start.0, start.1, 3] + rest, [vendor, version, date])
  }

  function SystemStructure(man: Text, product: Text, version: Text, serial: Text, handle: (byte, byte),
                           rest: seq<byte>): Structure
    requires 8 + |rest| < 0x100
  {
    Structure(Header(1, 8 + |rest|, handle) + [1, 2, 3, 4] + rest, [man, product, version, serial])
  }

  function BoardStructure(man: Text, product: Text, version: Text, serial: Text, asset: Text, handle: (byte, byte),
                          rest: seq<byte>): Structure
    requires 9 + |rest| < 0x100
  {
    Structure(Header(2, 9 + |rest|, handle) + [1, 2, 3, 4, 5] + rest, [man, product, version, serial, asset])
  }

  /** Bit 7 of the chassis type says whether there is a lock. */
  function ChassisStructure(man: Text, kind: nat, lock: bool, version: Text, serial: Text, asset: Text,
                            handle: (byte, byte), rest: seq<byte>): Structure
    requires 9 + |rest| < 0x100 && kind < 0x80
  {
    Structure(Header(3, 9 + |rest|, handle) + [1, kind + (if lock then 0x80 else 0), 2, 3, 4] + rest,
              [man, version, serial, asset])
  }

  /** Speeds in megahertz, 0 if unknown. Bit 6 of the status says that the socket is populated. */
  function CpuStructure(man: Text, version: Text, kind: byte, max: (byte, byte), current: (byte, byte), status: byte,
                        handle: (byte, byte), socket: byte, family: byte, id: seq<byte>, power: seq<byte>,
                        rest: seq<byte>): Structure
    requires |id| == 8 && |power| == 3 && 0x19 + |rest| < 0x100
  {
    Structure(Header(4, 0x19 + |rest|, handle) + [socket, kind, family, 1] + id + [2] + power +
              [max.0, max.1, current.0, current.1, status] + rest, [man, version])
  }

  lemma BiosReads(vendor: Text, version: Text, date: Text, handle: (byte, byte), start: (byte, byte), rest: seq<byte>,
                  hw: Inventory)
    requires 9 + |rest| < 0x100
    ensures var s := BiosStructure(vendor, version, date, handle, start, rest);
      Add(hw, s) == hw.(bios := Firmware(vendor, version, date))
  {
  }

  lemma SystemReads(man: Text, product: Text, version: Text, serial: Text, handle: (byte, byte), rest: seq<byte>,
                    hw: Inventory, id: Identity, swap: bool)
    requires 8 + |rest| < 0x100
    ensures var s := SystemStructure(man, product, version, serial, handle, rest);
      Add(hw, s) == hw.(sys := System(man, product, version, serial)) && Read(id, s, swap).systemSerial == serial
  {
  }

  lemma BoardReads(man: Text, product: Text, version: Text, serial: Text, asset: Text, handle: (byte, byte),
                   rest: seq<byte>, hw: Inventory, id: Identity, swap: bool)
    requires 9 + |rest| < 0x100
    ensures var s := BoardStructure(man, product, version, serial, asset, handle, rest);
      && Add(hw, s) == hw.(board := Board(man, product, version, serial, asset))
      && Read(id, s, swap) == id.(boardSerial := serial)
  {
  }

  lemma ChassisReads(man: Text, kind: nat, lock: bool, version: Text, serial: Text, asset: Text, handle: (byte, byte),
                     rest: seq<byte>, hw: Inventory, id: Identity, swap: bool)
    requires 9 + |rest| < 0x100 && kind < 0x80
    ensures var s := ChassisStructure(man, kind, lock, version, serial, asset, handle, rest);
      && Add(hw, s) == hw.(chassis := Case(man, version, serial, asset), caseType := Some(kind))
      && Read(id, s, swap) == id.(chassisAsset := asset)
  {
  }

  /** A processor counts if it is a central one in a populated socket and none with a version was read before. */
  lemma CpuReads(man: Text, version: Text, kind: byte, max: (byte, byte), current: (byte, byte), status: byte,
                 handle: (byte, byte), socket: byte, family: byte, id: seq<byte>, power: seq<byte>, rest: seq<byte>,
                 hw: Inventory)
    requires |id| == 8 && |power| == 3 && 0x19 + |rest| < 0x100
    ensures
      var s := CpuStructure(man, version, kind, max, current, status, handle, socket, family, id, power, rest);
      Add(hw, s) ==
        if hw.cpu.version == [] && kind == 3 && status / 64 % 2 == 1
        then hw.(cpu := Cpu(man, version, Speed(max), Speed(current))) else hw
  {
  }

  function Speed(mhz: (byte, byte)): Option<nat> {
    if mhz.0 == 0 && mhz.1 == 0 then None else Some((mhz.0 as int) + 256 * (mhz.1 as int))
  }

  /** A speed is read from a structure that ends just behind it, and from none that ends before. */
  lemma SpeedReads(front: seq<byte>, mhz: (byte, byte), rest: seq<byte>, strs: seq<Text>)
    ensures Mhz(Structure(front + [mhz.0, mhz.1] + rest, strs), |front|) == Speed(mhz)
    ensures Mhz(Structure(front + [mhz.0], strs), |front|) == Mhz(Structure(front, strs), |front|) == None
  {
  }

  /** A structure too short to say whether its socket is populated is trusted. */
  lemma ShortCpuReads(s: Structure, hw: Inventory)
    requires Type(s) == 4 && |s.formatted| <= 0x18 && hw.cpu.version == []
    ensures Add(hw, s) == hw.(cpu := Cpu(Str(s, 7), Str(s, 0x10), Mhz(s, 0x14), Mhz(s, 0x16)))
  {
  }

  /** Whole megabytes, none if nothing was reported. */
  lemma TotalReads(kb: nat)
    ensures TotalMB(kb).None? <==> kb == 0
    ensures TotalMB(kb).Some? ==> 1024 * TotalMB(kb).value <= kb < 1024 * (TotalMB(kb).value + 1)
  {
  }
}
