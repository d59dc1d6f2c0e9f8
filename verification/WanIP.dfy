/** The WAN address lookup (internal/wanip/wanip.go): which addresses count as public, which
    interfaces are consulted, and in what order. */
module WanIP {
  import opened Text

  type Byte = b: int | 0 <= b < 256

  /** net.IP: 4 or 16 bytes; nil is the empty sequence. */
  type IP = seq<Byte>

  /** Is this a four-byte address, or one mapped into 16 bytes? */
  function To4(ip: IP): (r: Option<IP>)
    ensures r.Some? ==> |r.value| == 4
  {
    if |ip| == 4 then Some(ip)
    else if |ip| == 16 && (forall i :: 0 <= i < 10 ==> ip[i] == 0) && ip[10] == 0xFF && ip[11] == 0xFF
    then Some(ip[12..])
    else None
  }

  /** The first twelve bytes of an IPv4 address mapped into IPv6 (section 2.5.5.2 of RFC 4291). */
  const MAPPED: IP := [0, 0, 0, 0, 0, 0, 0, 0, 0, 0, 0xFF, 0xFF]

  /** An address is an IPv4 address exactly when it is four bytes, or the same four bytes mapped. */
  lemma To4Iff(ip: IP, q: IP)
    ensures To4(ip) == Some(q) <==> |q| == 4 && (ip == q || ip == MAPPED + q)
  {
    if |ip| == 16 {
      assert ip == ip[..12] + ip[12..];
      if To4(ip).Some? {
        assert ip[..12] == MAPPED;
      }
      if |q| == 4 && ip == MAPPED + q {
        assert ip[12..] == q && forall i :: 0 <= i < 12 ==> ip[i] == MAPPED[i];
      }
    }
  }

  /** net.IP.IsGlobalUnicast on a four-byte address; `/ 16` reads the high four bits. */
  predicate GlobalUnicast4(q: IP)
    requires |q| == 4
  {
    && q != [255, 255, 255, 255] && q != [0, 0, 0, 0]
    && q[0] != 127
    && q[0] / 16 != 0xE
    && !(q[0] == 169 && q[1] == 254)
  }

  /** net.IP.IsPrivate on a four-byte address. */
  predicate Private4(q: IP)
    requires |q| == 4
  {
    q[0] == 10 || (q[0] == 172 && q[1] / 16 == 1) || (q[0] == 192 && q[1] == 168)
  }

  /** 100.64.0.0/10. */
  predicate CarrierGradeNAT4(q: IP)
    requires |q| == 4
  {
    q[0] == 100 && q[1] / 64 == 1
  }

  predicate IsPublicIPv4(ip: IP) {
    var q := To4(ip);
    q.Some? && GlobalUnicast4(q.value) && !Private4(q.value) && !CarrierGradeNAT4(q.value)
  }

  function Value32(q: IP): int
    requires |q| == 4
  {
    (q[0] as int) * 0x100_0000 + (q[1] as int) * 0x1_0000 + (q[2] as int) * 0x100 + q[3] as int
  }

  /** The addresses that are not accepted, as intervals of 32-bit numbers. */
  predicate Refused(v: int) {
    || v == 0                                  // unspecified
    || 0x0A00_0000 <= v <= 0x0AFF_FFFF         // 10/8, section 3 of RFC 1918
    || 0x6440_0000 <= v <= 0x647F_FFFF         // 100.64/10, section 7 of RFC 6598
    || 0x7F00_0000 <= v <= 0x7FFF_FFFF         // 127/8, loopback
    || 0xA9FE_0000 <= v <= 0xA9FE_FFFF         // 169.254/16, link-local
    || 0xAC10_0000 <= v <= 0xAC1F_FFFF         // 172.16/12, section 3 of RFC 1918
    || 0xC0A8_0000 <= v <= 0xC0A8_FFFF         // 192.168/16, section 3 of RFC 1918
    || 0xE000_0000 <= v <= 0xEFFF_FFFF         // 224/4, multicast
    || v == 0xFFFF_FFFF                        // limited broadcast
  }

  lemma FirstByteWithin(q: IP, low: int, high: int)
    requires |q| == 4
    ensures low <= q[0] <= high <==> low * 0x100_0000 <= Value32(q) <= high * 0x100_0000 + 0xFF_FFFF
  {
    var rest: int := (q[1] as int) * 0x1_0000 + (q[2] as int) * 0x100 + q[3] as int;
    assert 0 <= rest <= 0xFF_FFFF;
  }

  lemma SecondByteWithin(q: IP, first: int, low: int, high: int)
    requires |q| == 4 && 0 <= low <= high <= 255
    ensures q[0] == first && low <= q[1] <= high <==>
              first * 0x100_0000 + low * 0x1_0000 <= Value32(q) <= first * 0x100_0000 + high * 0x1_0000 + 0xFFFF
  {
    var rest: int := (q[2] as int) * 0x100 + q[3] as int;
    assert 0 <= rest <= 0xFFFF;
  }

  /** The byte tests accept exactly the IPv4 addresses outside those intervals. */
  lemma PublicIffNotRefused(ip: IP)
    ensures IsPublicIPv4(ip) <==> To4(ip).Some? && !Refused(Value32(To4(ip).value))
  {
    if To4(ip).Some? {
      var q := To4(ip).value;
      assert q == [q[0], q[1], q[2], q[3]];
      FirstByteWithin(q, 10, 10);
      FirstByteWithin(q, 127, 127);
      FirstByteWithin(q, 0xE0, 0xEF);
      SecondByteWithin(q, 100, 64, 127);
      SecondByteWithin(q, 169, 254, 254);
      SecondByteWithin(q, 172, 16, 31);
      SecondByteWithin(q, 192, 168, 168);
    }
  }

  /** The blocks that are not global, by the tables in section 2.2.2 of RFC 6890. */
  predicate NotGlobal(v: int) {
    || 0x0000_0000 <= v <= 0x00FF_FFFF         // 0/8, this network
    || 0x0A00_0000 <= v <= 0x0AFF_FFFF         // 10/8, private use
    || 0x6440_0000 <= v <= 0x647F_FFFF         // 100.64/10, shared address space
    || 0x7F00_0000 <= v <= 0x7FFF_FFFF         // 127/8, loopback
    || 0xA9FE_0000 <= v <= 0xA9FE_FFFF         // 169.254/16, link local
    || 0xAC10_0000 <= v <= 0xAC1F_FFFF         // 172.16/12, private use
    || 0xC000_0000 <= v <= 0xC000_00FF         // 192.0.0/24, IETF protocol assignments
    || 0xC000_0200 <= v <= 0xC000_02FF         // 192.0.2/24, TEST-NET-1
    || 0xC0A8_0000 <= v <= 0xC0A8_FFFF         // 192.168/16, private use
    || 0xC612_0000 <= v <= 0xC613_FFFF         // 198.18/15, benchmarking
    || 0xC633_6400 <= v <= 0xC633_64FF         // 198.51.100/24, TEST-NET-2
    || 0xCB00_7100 <= v <= 0xCB00_71FF         // 203.0.113/24, TEST-NET-3
    || 0xF000_0000 <= v <= 0xFFFF_FFFF         // 240/4, reserved, and the limited broadcast address
  }

  /** 224/4, which those tables leave out. */
  predicate Multicast(v: int) {
    0xE000_0000 <= v <= 0xEFFF_FFFF
  }

  /** What the code does not refuse of the blocks that are not global. */
  predicate Gap(v: int) {
    || 0x0000_0001 <= v <= 0x00FF_FFFF         // 0/8 but 0.0.0.0
    || 0xC000_0000 <= v <= 0xC000_00FF         // 192.0.0/24
    || 0xC000_0200 <= v <= 0xC000_02FF         // 192.0.2/24
    || 0xC612_0000 <= v <= 0xC613_FFFF         // 198.18/15
    || 0xC633_6400 <= v <= 0xC633_64FF         // 198.51.100/24
    || 0xCB00_7100 <= v <= 0xCB00_71FF         // 203.0.113/24
    || 0xF000_0000 <= v <= 0xFFFF_FFFE         // 240/4 but 255.255.255.255
  }

  /** An accepted address is globally routable exactly when it lies in no gap; and everything that is
      globally routable, multicast apart, is accepted. */
  lemma AcceptedIsGlobalIff(ip: IP)
    ensures IsPublicIPv4(ip) ==> (!NotGlobal(Value32(To4(ip).value)) <==> !Gap(Value32(To4(ip).value)))
    ensures IsPublicIPv4(ip) <==>
              To4(ip).Some? && var v := Value32(To4(ip).value);
              Gap(v) || (!NotGlobal(v) && !Multicast(v))
  {
    PublicIffNotRefused(ip);
    if To4(ip).Some? {
      assert 0 <= Value32(To4(ip).value) <= 0xFFFF_FFFF;
    }
  }

  predicate AcceptedButNotGlobal(ip: IP) {
    IsPublicIPv4(ip) && NotGlobal(Value32(To4(ip).value))
  }

  /** One address from each gap. */
  lemma AcceptedButNotRoutable()
    ensures AcceptedButNotGlobal([0, 0, 0, 1]) && AcceptedButNotGlobal([192, 0, 0, 1])
    ensures AcceptedButNotGlobal([192, 0, 2, 1]) && AcceptedButNotGlobal([198, 18, 0, 1])
    ensures AcceptedButNotGlobal([198, 51, 100, 1]) && AcceptedButNotGlobal([203, 0, 113, 1])
    ensures AcceptedButNotGlobal([240, 0, 0, 1])
  {
    GapIsAccepted([0, 0, 0, 1]);
    GapIsAccepted([192, 0, 0, 1]);
    GapIsAccepted([192, 0, 2, 1]);
    GapIsAccepted([198, 18, 0, 1]);
    GapIsAccepted([198, 51, 100, 1]);
    GapIsAccepted([203, 0, 113, 1]);
    GapIsAccepted([240, 0, 0, 1]);
  }

  lemma GapIsAccepted(q: IP)
    requires |q| == 4 && Gap(Value32(q))
    ensures AcceptedButNotGlobal(q)
  {
    AcceptedIsGlobalIff(q);
  }

  // ---------------------------------------------------------------- interfaces and routes

  datatype Addr = NetAddr(ip: IP) | PlainAddr(ip: IP) | OtherAddr

  datatype Interface = Interface(name: string, up: bool, loopback: bool)

  /** What the operating system reports: the lines of the route table, the interfaces, and the
      addresses of each interface. */
  datatype OS = OS(routes: Option<seq<string>>, interfaces: Result<seq<Interface>>, addrs: string -> Result<seq<Addr>>)

  function AddrToIP(a: Addr): IP {
    match a
    case NetAddr(ip) => ip
    case PlainAddr(ip) => ip
    case OtherAddr => []
  }

  predicate Public(a: Addr) {
    IsPublicIPv4(AddrToIP(a))
  }

  /** Of both recognised kinds it is the address itself that counts; no other kind is public. */
  lemma PublicAddrIff(a: Addr)
    ensures Public(a) <==> exists ip :: (a == NetAddr(ip) || a == PlainAddr(ip)) && IsPublicIPv4(ip)
  {
    if !a.OtherAddr? {
      assert a == NetAddr(a.ip) || a == PlainAddr(a.ip);
    }
  }

  function Word(s: string): (w: string)
    ensures w <= s && (s != "" && !IsSpace(s[0]) ==> w != "")
  {
    if s == "" || IsSpace(s[0]) then "" else [s[0]] + Word(s[1..])
  }

  /** strings.Fields. */
  function Fields(s: string): seq<string> {
    if s == "" then []
    else if IsSpace(s[0]) then Fields(s[1..])
    else [Word(s)] + Fields(s[|Word(s)|..])
  }

  /** Words with space around them. */
  function Weave(words: seq<string>, gaps: seq<string>): string
    requires |gaps| == |words| + 1
  {
    if words == [] then gaps[0] else gaps[0] + words[0] + Weave(words[1..], gaps[1..])
  }

  predicate NoSpace(s: string) {
    forall i :: 0 <= i < |s| ==> !IsSpace(s[i])
  }

  /** Words without space in them, and gaps of nothing but space, of which only the outer ones may be
      empty. */
  predicate Woven(words: seq<string>, gaps: seq<string>) {
    && |gaps| == |words| + 1 && (forall i :: 0 <= i < |words| ==> words[i] != "" && NoSpace(words[i]))
    && (forall i :: 0 <= i < |gaps| ==> AllSpace(gaps[i])) && (forall i :: 0 < i < |words| ==> gaps[i] != "")
  }

  lemma {:induction false} FieldsSkip(gap: string, s: string)
    requires AllSpace(gap)
    ensures Fields(gap + s) == Fields(s)
  {
    if gap == "" {
      assert gap + s == s;
    } else {
      assert (gap + s)[1..] == gap[1..] + s;
      FieldsSkip(gap[1..], s);
    }
  }

  lemma {:induction false} WordOf(w: string, rest: string)
    requires NoSpace(w) && (rest == "" || IsSpace(rest[0]))
    ensures Word(w + rest) == w
  {
    if w == "" {
      assert w + rest == rest;
    } else {
      assert (w + rest)[1..] == w[1..] + rest;
      WordOf(w[1..], rest);
      assert w == [w[0]] + w[1..];
    }
  }

  /** strings.Fields finds the words of a line, whatever the space between and around them. */
  lemma {:induction false} FieldsOf(words: seq<string>, gaps: seq<string>)
    requires Woven(words, gaps)
    ensures Fields(Weave(words, gaps)) == words
  {
    if words == [] {
      FieldsSkip(gaps[0], "");
      assert gaps[0] + "" == gaps[0];
    } else {
      var rest := Weave(words[1..], gaps[1..]);
      RestIsWoven(words, gaps);
      FieldsOf(words[1..], gaps[1..]);
      FirstField(words[0], rest, gaps[0]);
      assert Weave(words, gaps) == gaps[0] + (words[0] + rest);
      assert words == [words[0]] + words[1..];
    }
  }

  lemma RestIsWoven(words: seq<string>, gaps: seq<string>)
    requires Woven(words, gaps) && words != []
    ensures Woven(words[1..], gaps[1..])
    ensures var rest := Weave(words[1..], gaps[1..]);
            rest == "" || IsSpace(rest[0])
  {
    var rest := Weave(words[1..], gaps[1..]);
    if |words| > 1 {
      assert gaps[1] != "" && rest[0] == gaps[1][0];
    }
  }

  lemma FirstField(word: string, rest: string, gap: string)
    requires AllSpace(gap) && NoSpace(word) && word != "" && (rest == "" || IsSpace(rest[0]))
    ensures Fields(gap + (word + rest)) == [word] + Fields(rest)
  {
    FieldsSkip(gap, word + rest);
    WordOf(word, rest);
    assert (word + rest)[|word|..] == rest;
  }

  /** A line of the route table is the default route exactly when its second word is eight zeros and it
      has a third one. */
  lemma RouteLineIff(words: seq<string>, gaps: seq<string>)
    requires Woven(words, gaps)
    ensures DefaultRoute(Weave(words, gaps)) <==> |words| >= 3 && words[1] == "00000000"
  {
    FieldsOf(words, gaps);
  }

  predicate DefaultRoute(line: string) {
    |Fields(line)| >= 3 && Fields(line)[1] == "00000000"
  }

  /** The interface of the first default route after the header line. */
  function RouteInterface(routes: Option<seq<string>>): Option<string> {
    if routes.None? || routes.value == [] then None else FirstRoute(routes.value[1..])
  }

  function FirstRoute(lines: seq<string>): Option<string> {
    if lines == [] then None
    else if DefaultRoute(lines[0]) then Some(Fields(lines[0])[0])
    else FirstRoute(lines[1..])
  }

  /** The interface is that of the first default route below the first line of the table. */
  lemma {:induction false} FirstRouteFound(before: seq<string>, line: string, after: seq<string>)
    requires (forall i :: 0 <= i < |before| ==> !DefaultRoute(before[i])) && DefaultRoute(line)
    ensures FirstRoute(before + [line] + after) == Some(Fields(line)[0]) && FirstRoute(before) == None
  {
    if before == [] {
      assert ([] + [line] + after)[0] == line;
    } else {
      assert (before + [line] + after)[0] == before[0];
      assert (before + [line] + after)[1..] == before[1..] + [line] + after;
      FirstRouteFound(before[1..], line, after);
    }
  }

  /** In terms of words: the table names an interface exactly when a line below its first one has eight
      zeros as its second word and a third word, and it is the first word of the first such line. */
  lemma RouteFound(header: string, before: seq<string>, words: seq<string>, gaps: seq<string>, after: seq<string>)
    requires forall i :: 0 <= i < |before| ==> !DefaultRoute(before[i])
    requires Woven(words, gaps) && |words| >= 3 && words[1] == "00000000"
    ensures RouteInterface(Some([header] + before + [Weave(words, gaps)] + after)) == Some(words[0])
    ensures RouteInterface(Some([header] + before)) == None
  {
    var line := Weave(words, gaps);
    FieldsOf(words, gaps);
    FirstRouteFound(before, line, after);
    assert ([header] + before + [line] + after)[1..] == before + [line] + after;
    assert ([header] + before)[1..] == before;
  }

  function UsableNames(ifaces: seq<Interface>): seq<string> {
    if ifaces == [] then [] else
      UsableNames(ifaces[..|ifaces| - 1]) +
      var last := ifaces[|ifaces| - 1];
      if last.loopback || !last.up then [] else [last.name]
  }

  function AddrsOf(os: OS, name: string): seq<Addr> {
    if os.addrs(name).Ok? then os.addrs(name).value else []
  }

  function AddrsOfAll(os: OS, names: seq<string>): seq<Addr> {
    if names == [] then [] else AddrsOfAll(os, names[..|names| - 1]) + AddrsOf(os, names[|names| - 1])
  }

  predicate Usable(ifaces: seq<Interface>, i: nat, name: string)
    requires i < |ifaces|
  {
    ifaces[i].name == name && ifaces[i].up && !ifaces[i].loopback
  }

  lemma {:induction false} UsableIff(ifaces: seq<Interface>, name: string)
    ensures name in UsableNames(ifaces) <==> exists i: nat :: i < |ifaces| && Usable(ifaces, i, name)
  {
    if ifaces != [] {
      var front := ifaces[..|ifaces| - 1];
      UsableIff(front, name);
      if i: nat :| i < |front| && Usable(front, i, name) {
        assert Usable(ifaces, i, name);
      }
      var n := |front|;
      assert name in UsableNames(ifaces) <==> name in UsableNames(front) || Usable(ifaces, n, name);
      if i: nat :| i < |ifaces| && Usable(ifaces, i, name) {
        assert i < n ==> Usable(front, i, name);
        assert i >= n ==> i == n;
      }
    }
  }

  lemma {:induction false} UsableAppend(a: seq<Interface>, b: seq<Interface>)
    ensures UsableNames(a + b) == UsableNames(a) + UsableNames(b)
  {
    if b == [] {
      assert a + b == a;
    } else {
      assert (a + b)[..|a + b| - 1] == a + b[..|b| - 1];
      UsableAppend(a, b[..|b| - 1]);
    }
  }

  lemma {:induction false} AddrsIff(os: OS, names: seq<string>, a: Addr)
    ensures a in AddrsOfAll(os, names) <==> exists k: nat :: k < |names| && a in AddrsOf(os, names[k])
  {
    if names != [] {
      var front := names[..|names| - 1];
      AddrsIff(os, front, a);
      if k: nat :| k < |front| && a in AddrsOf(os, front[k]) {
        assert a in AddrsOf(os, names[k]);
      }
      if k: nat :| k < |names| && a in AddrsOf(os, names[k]) {
        assert k < |front| ==> a in AddrsOf(os, front[k]);
      }
    }
  }

  /** Which interfaces a lookup asks: the named one alone; with no name, that of the default route alone;
      and if there is none, all those that are up and not loopback, and no others. */
  predicate Asks(os: OS, name: string, iface: string) {
    if name != "" then iface == name
    else if RouteInterface(os.routes).Some? then RouteInterface(os.routes) == Some(iface)
    else os.interfaces.Ok? && exists i: nat :: i < |os.interfaces.value| && Usable(os.interfaces.value, i, iface)
  }

  lemma ConsultedIff(os: OS, name: string, a: Addr)
    ensures a in Consulted(os, name) <==> exists iface :: Asks(os, name, iface) && a in AddrsOf(os, iface)
  {
    if name != "" {
      assert Asks(os, name, name);
    } else if RouteInterface(os.routes).Some? {
      assert Asks(os, name, RouteInterface(os.routes).value);
    } else if os.interfaces.Ok? {
      var names := UsableNames(os.interfaces.value);
      AddrsIff(os, names, a);
      if a in Consulted(os, name) {
        var k: nat :| k < |names| && a in AddrsOf(os, names[k]);
        UsableIff(os.interfaces.value, names[k]);
        assert Asks(os, name, names[k]);
      }
      if iface :| Asks(os, name, iface) && a in AddrsOf(os, iface) {
        UsableIff(os.interfaces.value, iface);
        var k :| 0 <= k < |names| && names[k] == iface;
      }
    }
  }

  /** Every address that a lookup considers, in order: those of the named interface, else of the
      default-route interface, else of all interfaces that are up and not loopback. */
  function Consulted(os: OS, name: string): seq<Addr> {
    if name != "" then AddrsOf(os, name)
    else if RouteInterface(os.routes).Some? then AddrsOf(os, RouteInterface(os.routes).value)
    else if os.interfaces.Ok? then AddrsOfAll(os, UsableNames(os.interfaces.value))
    else []
  }

  /** `r` is the first public address of the list, or an error if it has none. */
  ghost predicate FirstPublicOf(addrs: seq<Addr>, r: Result<IP>) {
    match r
    case Ok(ip) =>
      exists i :: 0 <= i < |addrs| && Public(addrs[i]) && ip == AddrToIP(addrs[i]) &&
                  forall j :: 0 <= j < i ==> !Public(addrs[j])
    case Err(_) => forall i :: 0 <= i < |addrs| ==> !Public(addrs[i])
  }

  method ListInterfaceNames(os: OS) returns (r: Result<seq<string>>)
    ensures r == if os.interfaces.Ok? then Ok(UsableNames(os.interfaces.value)) else Err(os.interfaces.error)
  {
    if os.interfaces.Err? {
      return Err(os.interfaces.error);
    }
    var ifaces := os.interfaces.value;
    var names := [];
    for k := 0 to |ifaces|
      invariant names == UsableNames(ifaces[..k])
    {
      assert ifaces[..k + 1][..k] == ifaces[..k];
      if !ifaces[k].loopback && ifaces[k].up {
        names := names + [ifaces[k].name];
      }
    }
    assert ifaces[..|ifaces|] == ifaces;
    r := Ok(names);
  }

  method DetectDefaultRouteInterface(os: OS) returns (r: Result<string>)
    ensures r.Ok? <==> RouteInterface(os.routes).Some?
    ensures r.Ok? ==> r.value == RouteInterface(os.routes).value
  {
    if os.routes.None? {
      return Err("open route table");
    }
    var lines := os.routes.value;
    if lines == [] {
      return Err("empty route table");
    }
    for k := 1 to |lines|
      invariant FirstRoute(lines[1..]) == FirstRoute(lines[k..])
    {
      var fields := Fields(lines[k]);
      assert lines[k..][1..] == lines[k + 1..];
      if |fields| < 3 {
        continue;
      }
      if fields[1] == "00000000" {
        return Ok(fields[0]);
      }
    }
    r := Err("no default route");
  }

  method FirstPublicAddr(addrs: seq<Addr>) returns (r: Result<IP>)
    ensures FirstPublicOf(addrs, r)
  {
    for k := 0 to |addrs|
      invariant forall j :: 0 <= j < k ==> !Public(addrs[j])
    {
      var ip := AddrToIP(addrs[k]);
      if IsPublicIPv4(ip) {
        return Ok(ip);
      }
    }
    r := Err("no public IPv4 address");
  }

  method FirstPublicInterfaceIP(os: OS) returns (r: Result<IP>)
    ensures FirstPublicOf(if os.interfaces.Ok? then AddrsOfAll(os, UsableNames(os.interfaces.value)) else [], r)
  {
    var listed := ListInterfaceNames(os);
    if listed.Err? {
      return Err(listed.error);
    }
    var names := listed.value;
    for k := 0 to |names|
      invariant forall j :: 0 <= j < |AddrsOfAll(os, names[..k])| ==> !Public(AddrsOfAll(os, names[..k])[j])
    {
      assert names[..k + 1][..k] == names[..k];
      var addrs := os.addrs(names[k]);
      if addrs.Err? {
        continue;
      }
      var found := FirstPublicAddr(addrs.value);
      if found.Ok? {
        FirstInPrefix(os, names, k, found);
        return found;
      }
    }
    assert names[..|names|] == names;
    r := Err("no interface has a public IPv4 address");
  }

  lemma {:induction false} AddrsOfPrefix(os: OS, names: seq<string>, k: nat)
    requires k <= |names|
    ensures AddrsOfAll(os, names[..k]) <= AddrsOfAll(os, names)
  {
    if k < |names| {
      AddrsOfPrefix(os, names[..|names| - 1], k);
      assert names[..|names| - 1][..k] == names[..k];
    } else {
      assert names[..k] == names;
    }
  }

  lemma FirstInPrefix(os: OS, names: seq<string>, k: nat, r: Result<IP>)
    requires k < |names| && r.Ok? && FirstPublicOf(AddrsOf(os, names[k]), r)
    requires forall j :: 0 <= j < |AddrsOfAll(os, names[..k])| ==> !Public(AddrsOfAll(os, names[..k])[j])
    ensures FirstPublicOf(AddrsOfAll(os, names), r)
  {
    AddrsOfPrefix(os, names, k + 1);
    assert names[..k + 1][..k] == names[..k];
    FirstInMiddle(AddrsOfAll(os, names[..k]), AddrsOf(os, names[k]), AddrsOfAll(os, names), r);
  }

  lemma FirstInMiddle(before: seq<Addr>, here: seq<Addr>, all: seq<Addr>, r: Result<IP>)
    requires before + here <= all && r.Ok? && FirstPublicOf(here, r)
    requires forall j :: 0 <= j < |before| ==> !Public(before[j])
    ensures FirstPublicOf(all, r)
  {
    var i :| 0 <= i < |here| && Public(here[i]) && r.value == AddrToIP(here[i]) &&
             forall j :: 0 <= j < i ==> !Public(here[j]);
    assert all[|before| + i] == here[i];
    forall j | 0 <= j < |before| + i
      ensures !Public(all[j])
    {
      assert all[j] == (before + here)[j];
    }
  }

  /** Sound and complete: the first public address among those consulted, or an error when there
      is none; and what is public is fixed by the intervals. */
  method FromInterface(os: OS, name: string) returns (r: Result<IP>)
    ensures FirstPublicOf(Consulted(os, name), r)
    ensures r.Ok? ==> To4(r.value).Some? && !Refused(Value32(To4(r.value).value))
  {
    var iface := name;
    if iface == "" {
      var detected := DetectDefaultRouteInterface(os);
      if detected.Err? {
        r := FirstPublicInterfaceIP(os);
        if r.Ok? {
          PublicIffNotRefused(r.value);
        }
        return;
      }
      iface := detected.value;
    }
    var addrs := os.addrs(iface);
    if addrs.Err? {
      return Err(addrs.error);
    }
    r := FirstPublicAddr(addrs.value);
    if r.Ok? {
      PublicIffNotRefused(r.value);
    }
  }

  // ---------------------------------------------------------------- text

  function Digit(n: nat): char
    requires n < 10
  {
    ('0' as int + n) as char
  }

  function Decimal(n: Byte): string {
    if n < 10 then [Digit(n)]
    else if n < 100 then [Digit(n / 10), Digit(n % 10)]
    else [Digit(n / 100), Digit(n / 10 % 10), Digit(n % 10)]
  }

  /** net.IP.String on an IPv4 address. */
  function Dotted(q: IP): string
    requires |q| == 4
  {
    Decimal(q[0]) + "." + Decimal(q[1]) + "." + Decimal(q[2]) + "." + Decimal(q[3])
  }

  /** Decimal digits by place value; None for anything else. */
  function ReadDecimal(t: string): Option<nat> {
    if t == "" || !('0' <= t[|t| - 1] <= '9') then None else
      var last := t[|t| - 1] as int - '0' as int;
      if |t| == 1 then Some(last) else
        var front := ReadDecimal(t[..|t| - 1]);
        if front.Some? then Some(10 * front.value + last) else None
  }

  function ReadByte(t: string): Option<Byte> {
    var n := ReadDecimal(t);
    if n.Some? && n.value < 256 then Some(n.value) else None
  }

  /** Four numbers below 256, with dots between them. */
  function ReadDotted(t: string): (r: Option<IP>)
    ensures r.Some? ==> |r.value| == 4
  {
    var parts := Split(t, '.');
    if |parts| != 4 then None else
      var a, b, c, d := ReadByte(parts[0]), ReadByte(parts[1]), ReadByte(parts[2]), ReadByte(parts[3]);
      if a.Some? && b.Some? && c.Some? && d.Some? then Some([a.value, b.value, c.value, d.value]) else None
  }

  /** A number reads back, and is written without needless zeros. */
  lemma DecimalReads(n: Byte)
    ensures ReadByte(Decimal(n)) == Some(n) && '.' !in Decimal(n)
    ensures |Decimal(n)| > 1 ==> Decimal(n)[0] != '0'
  {
    var t := Decimal(n);
    if n >= 100 {
      var front := t[..2];
      assert front[..1] == [Digit(n / 100)];
      assert ReadDecimal(front[..1]) == Some(n / 100);
      assert ReadDecimal(front) == Some(10 * (n / 100) + n / 10 % 10);
    } else if n >= 10 {
      assert t[..1] == [Digit(n / 10)];
      assert ReadDecimal(t[..1]) == Some(n / 10);
    }
  }

  lemma DottedShape(q: IP)
    requires |q| == 4
    ensures Dotted(q) == Decimal(q[0]) + ['.'] + (Decimal(q[1]) + ['.'] + (Decimal(q[2]) + ['.'] + Decimal(q[3])))
  {
  }

  /** The text of an address reads back as the address, so no two addresses have the same text. */
  lemma DottedReads(q: IP)
    requires |q| == 4
    ensures ReadDotted(Dotted(q)) == Some(q)
  {
    var a, b, c, d := Decimal(q[0]), Decimal(q[1]), Decimal(q[2]), Decimal(q[3]);
    DecimalReads(q[0]);
    DecimalReads(q[1]);
    DecimalReads(q[2]);
    DecimalReads(q[3]);
    DottedShape(q);
    SplitPrefix(a, b + ['.'] + (c + ['.'] + d), '.');
    SplitThree(b, c, d, '.');
    assert Split(Dotted(q), '.') == [a, b, c, d];
    assert q == [q[0], q[1], q[2], q[3]];
  }

  lemma DottedInjective(p: IP, q: IP)
    requires |p| == |q| == 4 && Dotted(p) == Dotted(q)
    ensures p == q
  {
    DottedReads(p);
    DottedReads(q);
  }
}
