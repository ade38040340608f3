/** Finding the firmware's network boot entry: EFI load options, their device paths, and the choice. */
module NetBoot {
  import opened Wrappers
  import opened Binary

  const MESSAGING := 0x03
  const END_PATH := 0x7f
  const MAC := 0x0b
  const IPV4 := 0x0c
  const IPV6 := 0x0d

  /** The description as its 16-bit units. */
  datatype LoadOption = LoadOption(active: bool, network: bool, ipv4: bool, units: seq<nat>)

  datatype Parsed = Parsed(lo: LoadOption) | TooShort | Unterminated | PathTooLong

  /** The units before the first zero unit, and the bytes after it. */
  function Units(t: seq<byte>, units: seq<nat>): Option<(seq<nat>, seq<byte>)>
    decreases |t|
  {
    if |t| < 2 then None
    else if Le16(t, 0) == 0 then Some((units, t[2..]))
    else Units(t[2..], units + [Le16(t, 0)])
  }

  /** What the walk over the nodes concludes, with what it knows so far. */
  function Flags(dp: seq<byte>, network: bool, ipv4: bool): (bool, bool)
    decreases |dp|
  {
    if |dp| < 4 || Le16(dp, 2) < 4 || Le16(dp, 2) > |dp| || dp[0] == END_PATH then (network, ipv4)
    else
      var msg := dp[0] == MESSAGING;
      Flags(dp[Le16(dp, 2)..], network || (msg && dp[1] in {MAC, IPV4, IPV6}), ipv4 || (msg && dp[1] == IPV4))
  }

  function ParseOption(b: seq<byte>): Parsed {
    if |b| < 6 then TooShort
    else
      match Units(b[6..], [])
      case None => Unterminated
      case Some((units, dp)) =>
        if Le16(b, 4) > |dp| then PathTooLong
        else
          var f := Flags(dp[..Le16(b, 4)], false, false);
          Parsed(LoadOption(Le32(b, 0) % 2 == 1, f.0, f.1, units))
  }

  method DevicePathIsNetwork(path: seq<byte>) returns (network: bool, ipv4: bool)
    ensures (network, ipv4) == Flags(path, false, false)
  {
    network, ipv4 := false, false;
    var dp := path;
    while |dp| >= 4
      invariant Flags(path, false, false) == Flags(dp, network, ipv4)
      decreases |dp|
    {
      var t, st, l := dp[0], dp[1], Le16(dp, 2);
      if l < 4 || l > |dp| {
        return;
      }
      if t == END_PATH {
        return;
      }
      if t == MESSAGING {
        match st {
          case 0x0b => network := true;
          case 0x0c => network, ipv4 := true, true;
          case 0x0d => network := true;
          case _ =>
        }
      }
      dp := dp[l..];
    }
  }

  method ParseLoadOption(b: seq<byte>) returns (r: Parsed)
    ensures r == ParseOption(b)
  {
    if |b| < 6 {
      return TooShort;
    }
    var fpLen, rest := Le16(b, 4), b[6..];
    var units: seq<nat>, end, i := [], -1, 0;
    assert rest[0..] == rest;
    while i + 1 < |rest|
      invariant 0 <= i <= |rest| && end == -1 && Units(rest, []) == Units(rest[i..], units)
    {
      var u := Le16(rest, i);
      UnitAt(rest, i, units);
      if u == 0 {
        end := i + 2;
        break;
      }
      units := units + [u];
      i := i + 2;
    }
    if end < 0 {
      return Unterminated;
    }
    var dp := rest[end..];
    if fpLen > |dp| {
      return PathTooLong;
    }
    var network, ipv4 := DevicePathIsNetwork(dp[..fpLen]);
    r := Parsed(LoadOption(Le32(b, 0) % 2 == 1, network, ipv4, units));
  }

  lemma UnitAt(t: seq<byte>, i: nat, units: seq<nat>)
    requires i + 2 <= |t|
    ensures Units(t[i..], units) ==
      if Le16(t, i) == 0 then Some((units, t[i + 2..])) else Units(t[i + 2..], units + [Le16(t, i)])
  {
    assert t[i..][2..] == t[i + 2..];
  }

  /* ----- the encoder ----- */

  type word = n: int | 0 <= n < 0x1_0000

  function Put16(n: word): seq<byte> {
    [n % 0x100, n / 0x100]
  }

  function Put32(n: nat): seq<byte>
    requires n < 0x1_0000_0000
  {
    Put16(n % 0x1_0000) + Put16(n / 0x1_0000)
  }

  /** A device path node; its length field counts the four bytes of its header. */
  datatype Node = Node(typ: byte, sub: byte, data: seq<byte>)

  function PutNode(n: Node): seq<byte>
    requires |n.data| + 4 < 0x1_0000
  {
    [n.typ, n.sub] + Put16(|n.data| + 4) + n.data
  }

  predicate Fit(ns: seq<Node>) {
    forall i :: 0 <= i < |ns| ==> |ns[i].data| + 4 < 0x1_0000
  }

  function PutNodes(ns: seq<Node>): seq<byte>
    requires Fit(ns)
  {
    if ns == [] then [] else PutNode(ns[0]) + PutNodes(ns[1..])
  }

  function PutUnits(us: seq<word>): seq<byte> {
    if us == [] then [] else Put16(us[0]) + PutUnits(us[1..])
  }

  /** The nodes before the first end node. */
  function Live(ns: seq<Node>): (r: seq<Node>)
    ensures r <= ns && (forall n :: n in r ==> n.typ != END_PATH) && (|r| < |ns| ==> ns[|r|].typ == END_PATH)
  {
    if ns == [] || ns[0].typ == END_PATH then [] else [ns[0]] + Live(ns[1..])
  }

  /** One of them is a messaging node of one of these kinds. */
  predicate Carries(ns: seq<Node>, kinds: set<int>) {
    exists n :: n in Live(ns) && n.typ == MESSAGING && (n.sub as int) in kinds
  }

  lemma Put16Reads(n: word, a: seq<byte>, b: seq<byte>)
    ensures Le16(a + Put16(n) + b, |a|) == n
  {
  }

  /** Walking over one encoded node. */
  lemma NodeReads(n: Node, rest: seq<byte>, network: bool, ipv4: bool)
    requires |n.data| + 4 < 0x1_0000
    ensures Flags(PutNode(n) + rest, network, ipv4) ==
      if n.typ == END_PATH then (network, ipv4)
      else var msg := n.typ == MESSAGING;
        Flags(rest, network || (msg && n.sub in {MAC, IPV4, IPV6}), ipv4 || (msg && n.sub == IPV4))
  {
    var l, dp := |n.data| + 4, PutNode(n) + rest;
    assert dp == [n.typ, n.sub] + Put16(l) + (n.data + rest);
    Put16Reads(l, [n.typ, n.sub], n.data + rest);
    assert dp[0] == n.typ && dp[1] == n.sub && dp[l..] == rest;
  }

  lemma NodesCons(ns: seq<Node>, scrap: seq<byte>)
    requires Fit(ns) && ns != []
    ensures PutNodes(ns) + scrap == PutNode(ns[0]) + (PutNodes(ns[1..]) + scrap)
  {
  }

  lemma NoneCarried(ns: seq<Node>, kinds: set<int>)
    requires ns == [] || ns[0].typ == END_PATH
    ensures !Carries(ns, kinds) && (ns == [] ==> !(Live(ns) < ns))
  {
  }

  /** Walking an encoded path says whether a network node, and whether an IPv4 node, precedes the first end
      node. What follows that node, or fewer than four bytes after the last, does not matter. */
  lemma {:induction false} PathReads(ns: seq<Node>, scrap: seq<byte>, network: bool, ipv4: bool)
    requires Fit(ns) && (|scrap| < 4 || Live(ns) < ns)
    ensures Flags(PutNodes(ns) + scrap, network, ipv4) ==
      (network || Carries(ns, {MAC, IPV4, IPV6}), ipv4 || Carries(ns, {IPV4}))
  {
    hide Carries, Live, PutNode;
    if ns == [] {
      NoneCarried(ns, {MAC, IPV4, IPV6});
      NoneCarried(ns, {IPV4});
      assert PutNodes(ns) + scrap == scrap;
    } else {
      hide Flags, PutNodes;
      var n := ns[0];
      NodesCons(ns, scrap);
      NodeReads(n, PutNodes(ns[1..]) + scrap, network, ipv4);
      if n.typ == END_PATH {
        NoneCarried(ns, {MAC, IPV4, IPV6});
        NoneCarried(ns, {IPV4});
      } else {
        CarriesCons(ns, {MAC, IPV4, IPV6});
        CarriesCons(ns, {IPV4});
        var msg := n.typ == MESSAGING;
        PathReads(ns[1..], scrap, network || (msg && n.sub in {MAC, IPV4, IPV6}), ipv4 || (msg && n.sub == IPV4));
      }
    }
  }

  lemma CarriesCons(ns: seq<Node>, kinds: set<int>)
    requires ns != [] && ns[0].typ != END_PATH
    ensures Carries(ns, kinds) <==> (ns[0].typ == MESSAGING && (ns[0].sub as int) in kinds) || Carries(ns[1..], kinds)
    ensures Live(ns) < ns <==> Live(ns[1..]) < ns[1..]
  {
    var live := Live(ns);
    assert live == [ns[0]] + Live(ns[1..]);
    assert forall n :: n in live <==> n == ns[0] || n in Live(ns[1..]);
  }

  lemma {:induction false} UnitsRead(us: seq<word>, got: seq<nat>, rest: seq<byte>)
    requires 0 !in us
    ensures Units(PutUnits(us) + ([0, 0] + rest), got) == Some((got + us, rest))
    decreases |us|
  {
    var t := PutUnits(us) + ([0, 0] + rest);
    if us == [] {
      assert t == [0, 0] + rest && t[2..] == rest && got + us == got;
    } else {
      var more := PutUnits(us[1..]) + ([0, 0] + rest);
      assert t == [] + Put16(us[0]) + more;
      Put16Reads(us[0], [], more);
      assert us[0] in us && t[2..] == more;
      UnitsRead(us[1..], got + [us[0]], rest);
      assert got + [us[0]] + us[1..] == got + us;
    }
  }

  /** An EFI load option. */
  function PutOption(attributes: nat, us: seq<word>, path: seq<byte>, data: seq<byte>): seq<byte>
    requires attributes < 0x1_0000_0000 && |path| < 0x1_0000
  {
    Put32(attributes) + Put16(|path|) + (PutUnits(us) + ([0, 0] + (path + data)))
  }

  /** Parsing an encoded load option recovers the active bit, the description and the kind of path. */
  lemma OptionReads(attributes: nat, us: seq<word>, ns: seq<Node>, scrap: seq<byte>, data: seq<byte>)
    requires attributes < 0x1_0000_0000 && 0 !in us
    requires Fit(ns) && (|scrap| < 4 || Live(ns) < ns) && |PutNodes(ns) + scrap| < 0x1_0000
    ensures ParseOption(PutOption(attributes, us, PutNodes(ns) + scrap, data)) ==
      Parsed(LoadOption(attributes % 2 == 1, Carries(ns, {MAC, IPV4, IPV6}), Carries(ns, {IPV4}), us))
  {
    hide Units, Flags, PutUnits, PutNodes, Carries;
    var path := PutNodes(ns) + scrap;
    var b := PutOption(attributes, us, path, data);
    var body := PutUnits(us) + ([0, 0] + (path + data));
    Put16Reads(|path|, Put32(attributes), body);
    assert b[6..] == body;
    assert Le32(b, 0) == attributes;
    UnitsRead(us, [], path + data);
    assert [] + us == us;
    assert (path + data)[..|path|] == path;
    PathReads(ns, scrap, false, false);
  }

  /** The n-th unit is the first zero one. */
  predicate EndsAt(t: seq<byte>, n: nat) {
    2 * n + 2 <= |t| && Le16(t, 2 * n) == 0 && forall k: nat :: k < n ==> Le16(t, 2 * k) != 0
  }

  lemma EndsLater(t: seq<byte>, n: nat)
    requires |t| >= 2 && Le16(t, 0) != 0
    ensures EndsAt(t[2..], n) <==> EndsAt(t, n + 1)
  {
    assert forall k: nat :: 2 * k + 2 <= |t[2..]| ==> Le16(t[2..], 2 * k) == Le16(t, 2 * (k + 1));
    if EndsAt(t[2..], n) {
      forall k: nat | k < n + 1
        ensures Le16(t, 2 * k) != 0
      {
        if k > 0 {
          assert Le16(t[2..], 2 * (k - 1)) != 0;
        }
      }
    }
    if EndsAt(t, n + 1) {
      forall k: nat | k < n
        ensures Le16(t[2..], 2 * k) != 0
      {
        assert Le16(t, 2 * (k + 1)) != 0;
      }
    }
  }

  lemma {:induction false} UnitsEnd(t: seq<byte>, units: seq<nat>, n: nat)
    requires EndsAt(t, n)
    ensures Units(t, units).Some? && 2 * n + 2 <= |t| && Units(t, units).value.1 == t[2 * n + 2..]
    decreases n
  {
    if n > 0 {
      assert Le16(t, 2 * 0) != 0;
      hide EndsAt, Units;
      EndsLater(t, n - 1);
      UnitsOn(t, units);
      UnitsEnd(t[2..], units + [Le16(t, 0)], n - 1);
      assert t[2..][2 * (n - 1) + 2..] == t[2 * n + 2..];
    }
  }

  lemma {:induction false} UnitsEnded(t: seq<byte>, units: seq<nat>) returns (n: nat)
    requires Units(t, units).Some?
    ensures EndsAt(t, n)
    decreases |t|
  {
    hide EndsAt, Units;
    UnitsOn(t, units);
    if Le16(t, 0) == 0 {
      n := 0;
      AtOnce(t);
    } else {
      n := UnitsEnded(t[2..], units + [Le16(t, 0)]);
      EndsLater(t, n);
      n := n + 1;
    }
  }

  lemma UnitsOn(t: seq<byte>, units: seq<nat>)
    ensures |t| < 2 ==> Units(t, units).None?
    ensures |t| >= 2 && Le16(t, 0) != 0 ==> Units(t, units) == Units(t[2..], units + [Le16(t, 0)])
  {
  }

  lemma AtOnce(t: seq<byte>)
    requires |t| >= 2 && Le16(t, 0) == 0
    ensures EndsAt(t, 0)
  {
  }

  /** An option is refused for three reasons: it has no header, its description does not end, or its path does
      not fit behind the description. */
  lemma RefusesExactly(b: seq<byte>)
    ensures ParseOption(b).TooShort? <==> |b| < 6
    ensures ParseOption(b).Unterminated? <==> |b| >= 6 && forall n: nat :: !EndsAt(b[6..], n)
    ensures ParseOption(b).PathTooLong? <==>
      |b| >= 6 && exists n: nat :: EndsAt(b[6..], n) && 6 + 2 * n + 2 + Le16(b, 4) > |b|
  {
    hide EndsAt, Units, Flags;
    if |b| >= 6 {
      forall n: nat | EndsAt(b[6..], n)
        ensures Units(b[6..], []).Some? && 6 + 2 * n + 2 + |Units(b[6..], []).value.1| == |b|
      {
        UnitsEnd(b[6..], [], n);
      }
      if Units(b[6..], []).Some? {
        var n := UnitsEnded(b[6..], []);
      }
    }
  }

  /* ----- the choice ----- */

  datatype Choice = Choice(number: nat, units: seq<nat>, ipv4: bool)

  predicate Bootable(opts: map<nat, LoadOption>, n: nat, needIPv4: bool) {
    n in opts && opts[n].active && opts[n].network && (needIPv4 ==> opts[n].ipv4)
  }

  /** Entry i is the first in the order that the agent could boot. */
  predicate First(order: seq<nat>, opts: map<nat, LoadOption>, needIPv4: bool, i: nat) {
    i < |order| && Bootable(opts, order[i], needIPv4) && forall j :: 0 <= j < i ==> !Bootable(opts, order[j], needIPv4)
  }

  predicate Any(order: seq<nat>, opts: map<nat, LoadOption>, needIPv4: bool) {
    exists n :: n in order && Bootable(opts, n, needIPv4)
  }

  /** The first active IPv4 network entry of the boot order, else the first active network entry, else none. */
  ghost predicate Chosen(order: seq<nat>, opts: map<nat, LoadOption>, r: Option<Choice>) {
    if Any(order, opts, false) then
      exists i: nat :: First(order, opts, Any(order, opts, true), i) && order[i] in opts &&
        r == Some(Choice(order[i], opts[order[i]].units, opts[order[i]].ipv4))
    else r.None?
  }

  method Choose(order: seq<nat>, opts: map<nat, LoadOption>) returns (r: Option<Choice>)
    ensures Chosen(order, opts, r)
  {
    var fallback: Option<Choice> := None;
    ghost var at := 0;
    for i := 0 to |order|
      invariant forall j :: 0 <= j < i ==> !Bootable(opts, order[j], true)
      invariant fallback.None? ==> forall j :: 0 <= j < i ==> !Bootable(opts, order[j], false)
      invariant fallback.Some? ==> First(order, opts, false, at) && at < i && order[at] in opts
      invariant fallback.Some? ==> fallback == Some(Choice(order[at], opts[order[at]].units, opts[order[at]].ipv4))
    {
      var n := order[i];
      if n !in opts || !opts[n].active || !opts[n].network {
        continue;
      }
      var o := Choice(n, opts[n].units, opts[n].ipv4);
      if opts[n].ipv4 {
        assert First(order, opts, true, i);
        assert n in order && Bootable(opts, n, true) && Bootable(opts, n, false);
        return Some(o);
      }
      if fallback.None? {
        fallback, at := Some(o), i;
      }
    }
    return fallback;
  }

  /* ----- the firmware ----- */

  datatype Found = Found(o: Choice) | NoOption | OddOrder | Unreadable

  function Order(raw: seq<byte>): seq<nat> {
    if |raw| < 2 then [] else Order(raw[..|raw| - 2]) + [Le16(raw, |raw| - 2)]
  }

  lemma {:induction false} UnitsSnoc(ns: seq<word>, n: word)
    ensures PutUnits(ns + [n]) == PutUnits(ns) + Put16(n)
  {
    if ns == [] {
      assert ns + [n] == [n] && [n][1..] == [];
      assert PutUnits([n]) == Put16(n) + PutUnits([]);
    } else {
      assert (ns + [n])[1..] == ns[1..] + [n];
      UnitsSnoc(ns[1..], n);
    }
  }

  lemma OrderSnoc(raw: seq<byte>, n: word)
    ensures Order(raw + Put16(n)) == Order(raw) + [n]
  {
    var all := raw + Put16(n);
    assert all[..|all| - 2] == raw;
    assert raw + Put16(n) + [] == all;
    Put16Reads(n, raw, []);
  }

  /** A boot order is read back as the entry numbers it lists, in their order. */
  lemma {:induction false} OrderReads(ns: seq<word>)
    ensures Order(PutUnits(ns)) == ns && |PutUnits(ns)| == 2 * |ns|
  {
    hide PutUnits, Order;
    if ns == [] {
      NoOrder();
    } else {
      var k := |ns| - 1;
      assert ns == ns[..k] + [ns[k]];
      OrderReads(ns[..k]);
      UnitsSnoc(ns[..k], ns[k]);
      OrderSnoc(PutUnits(ns[..k]), ns[k]);
    }
  }

  lemma NoOrder()
    ensures PutUnits([]) == [] && Order([]) == []
  {
  }

  /** The boot entries that can be read and parsed. */
  function Options(order: seq<nat>, entry: nat -> Option<seq<byte>>): map<nat, LoadOption> {
    map n | n in order && entry(n).Some? && ParseOption(entry(n).value).Parsed? :: ParseOption(entry(n).value).lo
  }

  method Find(raw: Option<seq<byte>>, entry: nat -> Option<seq<byte>>) returns (r: Found)
    ensures r.Unreadable? <==> raw.None?
    ensures r.OddOrder? <==> raw.Some? && |raw.value| % 2 != 0
    ensures r.Found? || r.NoOption? ==>
      var order := Order(raw.value);
      Chosen(order, Options(order, entry), if r.Found? then Some(r.o) else None)
  {
    hide ParseOption;
    if raw.None? {
      return Unreadable;
    }
    var bytes := raw.value;
    if |bytes| % 2 != 0 {
      return OddOrder;
    }
    var order, i := [], 0;
    while i + 1 < |bytes|
      invariant i % 2 == 0 && 0 <= i <= |bytes| && order == Order(bytes[..i])
    {
      assert bytes[..i + 2][..i] == bytes[..i];
      order := order + [Le16(bytes, i)];
      i := i + 2;
    }
    assert bytes[..i] == bytes;
    var opts: map<nat, LoadOption> := map[];
    for k := 0 to |order|
      invariant opts == Options(order[..k], entry)
    {
      var n := order[k];
      assert forall x :: x in order[..k + 1] <==> x in order[..k] || x == n;
      var b := entry(n);
      if b.None? {
        continue;
      }
      var lo := ParseLoadOption(b.value);
      if !lo.Parsed? {
        continue;
      }
      opts := opts[n := lo.lo];
    }
    assert order[..|order|] == order;
    var o := Choose(order, opts);
    r := if o.None? then NoOption else Found(o.value);
  }
}
