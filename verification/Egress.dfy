/** The egress rules of a sandbox (crates/openshell-driver-lxd/src/egress.rs). */
module Egress {
  import opened Common
  import opened Text
  import opened Numerals
  import opened Sorting
  import opened IpText
  import opened Acls
  import opened RuleMatching
  import opened Cidr
  import AclSync

  type Port = n: nat | n < 0x1_0000

  datatype SocketAddr = SocketAddr(ip: IpAddr, port: Port)

  function Octets(a: nat, b: nat, c: nat, d: nat): Address
    requires a < 0x100 && b < 0x100 && c < 0x100 && d < 0x100
  {
    ((a * 0x100 + b) * 0x100 + c) * 0x100 + d
  }

  const NON_PUBLIC_IPV4: seq<Block> :=
    [ Block(Octets(0, 0, 0, 0), 8),
      Block(Octets(10, 0, 0, 0), 8),
      Block(Octets(100, 64, 0, 0), 10),
      Block(Octets(127, 0, 0, 0), 8),
      Block(Octets(169, 254, 0, 0), 16),
      Block(Octets(172, 16, 0, 0), 12),
      Block(Octets(192, 0, 0, 0), 24),
      Block(Octets(192, 0, 2, 0), 24),
      Block(Octets(192, 88, 99, 0), 24),
      Block(Octets(192, 168, 0, 0), 16),
      Block(Octets(198, 18, 0, 0), 15),
      Block(Octets(198, 51, 100, 0), 24),
      Block(Octets(203, 0, 113, 0), 24),
      Block(Octets(224, 0, 0, 0), 4),
      Block(Octets(240, 0, 0, 0), 4) ]

  /** Public, with `table` listing the IPv4 blocks that are not. */
  ghost predicate IsPublic(table: seq<Block>, ip: IpAddr) {
    match ip
    case V4(a) => !Covered(table, a)
    case V6(words) => IsGlobalUnicast(words)
  }

  /** What a sandbox may reach: the gateway over TCP, and the public internet. */
  ghost predicate Intended(table: seq<Block>, gateway: seq<SocketAddr>, packet: Packet) {
    || (packet.protocol == Some(Tcp) && packet.port < 0x1_0000
        && SocketAddr(packet.destination, packet.port) in gateway)
    || IsPublic(table, packet.destination)
  }

  // ----- the shape of the rules

  function GatewayRule(addresses: seq<string>, port: nat): Rule {
    AllowEgress(Join(addresses, ','), Some(Tcp), Digits(port, 10), "OpenShell gateway")
  }

  function CidrTexts(cidrs: seq<Block>): (r: seq<string>)
    ensures |r| == |cidrs| && forall i :: 0 <= i < |cidrs| ==> r[i] == CidrText(cidrs[i])
  {
    seq(|cidrs|, i requires 0 <= i < |cidrs| => CidrText(cidrs[i]))
  }

  function Public4Rule(cidrs: seq<Block>): Rule {
    AllowEgress(Join(CidrTexts(cidrs), ','), None, "", "public IPv4 internet")
  }

  const PUBLIC6_RULE := AllowEgress(PUBLIC_IPV6, None, "", "public IPv6 internet")

  ghost predicate Listens(gateway: seq<SocketAddr>, port: nat) {
    exists a :: a in gateway && a.port == port
  }

  ghost predicate ListensAt(gateway: seq<SocketAddr>, port: nat, text: string) {
    exists a :: a in gateway && a.port == port && Show(a.ip) == text
  }

  /** The addresses of one port, as text, in order and without repeats. */
  ghost predicate Addresses(addresses: seq<string>, gateway: seq<SocketAddr>, port: nat) {
    Ascends(Precedes, addresses) && forall text :: text in addresses <==> ListensAt(gateway, port, text)
  }

  ghost predicate IsGatewayRule(rule: Rule, gateway: seq<SocketAddr>, port: nat) {
    exists addresses :: Addresses(addresses, gateway, port) && rule == GatewayRule(addresses, port)
  }

  ghost predicate Ports(ports: seq<nat>, gateway: seq<SocketAddr>) {
    Ascends(Smaller, ports) && forall port :: port in ports <==> Listens(gateway, port)
  }

  ghost predicate IsPublic4Rule(table: seq<Block>, rule: Rule) {
    exists cidrs :: Division(cidrs, Complement(table)) && rule == Public4Rule(cidrs)
  }

  ghost predicate Laid(table: seq<Block>, rules: seq<Rule>, gateway: seq<SocketAddr>, ports: seq<nat>) {
    && Ports(ports, gateway) && |rules| == |ports| + 2
    && (forall i :: 0 <= i < |ports| ==> IsGatewayRule(rules[i], gateway, ports[i]))
    && IsPublic4Rule(table, rules[|ports|]) && rules[|ports| + 1] == PUBLIC6_RULE
  }

  ghost predicate Describe(table: seq<Block>, rules: seq<Rule>, gateway: seq<SocketAddr>) {
    exists ports :: Laid(table, rules, gateway, ports)
  }

  // ----- what each rule matches

  ghost predicate SomePieceNames(pieces: seq<string>, ip: IpAddr) {
    exists i :: 0 <= i < |pieces| && NamesAddress(pieces[i], ip)
  }

  lemma ListMatches(pieces: seq<string>, ip: IpAddr)
    requires pieces != [] && forall i :: 0 <= i < |pieces| ==> ',' !in pieces[i] && pieces[i] != ""
    ensures DestinationMatches(Join(pieces, ','), ip) <==> SomePieceNames(pieces, ip)
  {
    SplitJoin(pieces, ',');
    assert Split("", ',') == [""];
    if SomePieceNames(pieces, ip) {
      var i :| 0 <= i < |pieces| && NamesAddress(pieces[i], ip);
      assert pieces[i] in Split(Join(pieces, ','), ',');
    }
  }

  lemma GatewayPieces(addresses: seq<string>, gateway: seq<SocketAddr>, port: nat, i: nat)
    requires Addresses(addresses, gateway, port) && i < |addresses|
    ensures ',' !in addresses[i] && addresses[i] != ""
  {
    assert addresses[i] in addresses;
    var a :| a in gateway && a.port == port && Show(a.ip) == addresses[i];
    ShowLacks(a.ip, ',');
    ShowNotEmpty(a.ip);
  }

  lemma AddressesName(addresses: seq<string>, gateway: seq<SocketAddr>, port: Port, ip: IpAddr)
    requires Addresses(addresses, gateway, port)
    ensures SomePieceNames(addresses, ip) <==> SocketAddr(ip, port) in gateway
  {
    if i :| 0 <= i < |addresses| && NamesAddress(addresses[i], ip) {
      assert addresses[i] in addresses;
      var a :| a in gateway && a.port == port && Show(a.ip) == addresses[i];
      AddressNames(a.ip, ip);
      assert a == SocketAddr(ip, port);
    }
    if SocketAddr(ip, port) in gateway {
      assert ListensAt(gateway, port, Show(ip)) by { assert SocketAddr(ip, port).port == port; }
      assert Show(ip) in addresses;
      var i :| 0 <= i < |addresses| && addresses[i] == Show(ip);
      AddressNames(ip, ip);
    }
  }

  lemma GatewayRuleMatches(addresses: seq<string>, gateway: seq<SocketAddr>, port: Port, packet: Packet)
    requires Addresses(addresses, gateway, port) && Listens(gateway, port)
    ensures Matches(GatewayRule(addresses, port), packet)
            <==> packet.protocol == Some(Tcp) && packet.port == port && SocketAddr(packet.destination, port) in gateway
  {
    var a :| a in gateway && a.port == port;
    assert ListensAt(gateway, port, Show(a.ip));
    assert Show(a.ip) in addresses;
    forall i | 0 <= i < |addresses| ensures ',' !in addresses[i] && addresses[i] != "" {
      GatewayPieces(addresses, gateway, port, i);
    }
    ListMatches(addresses, packet.destination);
    AddressesName(addresses, gateway, port, packet.destination);
    PortNames(port, packet.port);
  }

  lemma CidrsName(cidrs: seq<Block>, ip: IpAddr)
    requires forall i :: 0 <= i < |cidrs| ==> cidrs[i].IsCidr()
    ensures SomePieceNames(CidrTexts(cidrs), ip) <==> ip.V4? && Covered(cidrs, ip.address)
  {
    forall i | 0 <= i < |cidrs| ensures NamesAddress(CidrTexts(cidrs)[i], ip) <==> ip.V4? && cidrs[i].Has(ip.address) {
      BlockNames(cidrs[i], ip);
    }
  }

  /** Some IPv4 address is public. */
  ghost predicate LeavesSome(table: seq<Block>) { exists a: Address :: !Covered(table, a) }

  /** The IPv4 rule matches the public IPv4 addresses. With none, its destination is
      empty, which matches everything. */
  lemma Public4RuleMatches(table: seq<Block>, cidrs: seq<Block>, packet: Packet)
    requires Division(cidrs, Complement(table))
    ensures Matches(Public4Rule(cidrs), packet)
            <==> !LeavesSome(table) || (packet.destination.V4? && IsPublic(table, packet.destination))
  {
    if a: Address :| !Covered(table, a) {
      assert a in Complement(table);
      assert Covered(cidrs, a);
      forall i | 0 <= i < |cidrs| ensures ',' !in CidrTexts(cidrs)[i] && CidrTexts(cidrs)[i] != "" {
        CidrTextLacks(cidrs[i], ',');
        assert CidrTexts(cidrs)[i] == CidrText(cidrs[i]);
      }
      ListMatches(CidrTexts(cidrs), packet.destination);
      CidrsName(cidrs, packet.destination);
    } else {
      NoCidrs(table, cidrs);
    }
  }

  lemma NoCidrs(table: seq<Block>, cidrs: seq<Block>)
    requires Division(cidrs, Complement(table))
    ensures cidrs == [] || LeavesSome(table)
  {
    if cidrs != [] {
      assert cidrs[0].Has(cidrs[0].address);
      assert Covered(cidrs, cidrs[0].address);
      assert !Covered(table, cidrs[0].address);
    }
  }

  lemma Public6RuleMatches(packet: Packet)
    ensures Matches(PUBLIC6_RULE, packet) <==> packet.destination.V6? && IsGlobalUnicast(packet.destination.words)
  {
    PublicIsOnePiece();
    PublicBlockNames(packet.destination);
  }

  lemma PublicIsOnePiece()
    ensures Split(PUBLIC_IPV6, ',') == [PUBLIC_IPV6]
  {
    SplitFirst(PUBLIC_IPV6, ',', "");
  }

  /** The rules let a packet through exactly when it is meant to get through, as long
      as the table leaves some IPv4 address public; with none they let everything
      through. */
  lemma RulesMean(table: seq<Block>, rules: seq<Rule>, gateway: seq<SocketAddr>, packet: Packet)
    requires Describe(table, rules, gateway)
    ensures Permits(rules, packet) <==> !LeavesSome(table) || Intended(table, gateway, packet)
  {
    var ports :| Laid(table, rules, gateway, ports);
    AllAllow(table, rules, gateway, ports);
    if rule :| rule in rules && Matches(rule, packet) {
      var i :| 0 <= i < |rules| && rules[i] == rule;
      MatchIsIntended(table, rules, gateway, ports, i, packet);
    }
    if !LeavesSome(table) || Intended(table, gateway, packet) {
      IntendedIsMatched(table, rules, gateway, ports, packet);
    }
  }

  lemma AllAllow(table: seq<Block>, rules: seq<Rule>, gateway: seq<SocketAddr>, ports: seq<nat>)
    requires Laid(table, rules, gateway, ports)
    ensures forall i :: 0 <= i < |rules| ==> rules[i].action.Allow?
  {
    forall i | 0 <= i < |rules| ensures rules[i].action.Allow? {
      assert i < |ports| ==> IsGatewayRule(rules[i], gateway, ports[i]);
    }
  }

  lemma PortListens(gateway: seq<SocketAddr>, ports: seq<nat>, i: nat)
    requires Ports(ports, gateway) && i < |ports|
    ensures Listens(gateway, ports[i]) && ports[i] < 0x1_0000
  {
    assert ports[i] in ports;
  }

  lemma GatewayMatchIsIntended(rule: Rule, gateway: seq<SocketAddr>, port: Port, packet: Packet)
    requires IsGatewayRule(rule, gateway, port) && Listens(gateway, port) && Matches(rule, packet)
    ensures packet.protocol == Some(Tcp) && packet.port == port && SocketAddr(packet.destination, port) in gateway
  {
    var addresses :| Addresses(addresses, gateway, port) && rule == GatewayRule(addresses, port);
    GatewayRuleMatches(addresses, gateway, port, packet);
  }

  lemma MatchIsIntended(
      table: seq<Block>, rules: seq<Rule>, gateway: seq<SocketAddr>, ports: seq<nat>, i: nat, packet: Packet)
    requires Laid(table, rules, gateway, ports) && i < |rules| && Matches(rules[i], packet)
    ensures !LeavesSome(table) || Intended(table, gateway, packet)
  {
    if i < |ports| {
      PortListens(gateway, ports, i);
      GatewayMatchIsIntended(rules[i], gateway, ports[i], packet);
    } else if i == |ports| {
      var cidrs :| Division(cidrs, Complement(table)) && rules[i] == Public4Rule(cidrs);
      Public4RuleMatches(table, cidrs, packet);
    } else {
      Public6RuleMatches(packet);
    }
  }

  lemma IntendedIsMatched(
      table: seq<Block>, rules: seq<Rule>, gateway: seq<SocketAddr>, ports: seq<nat>, packet: Packet)
    requires Laid(table, rules, gateway, ports) && (!LeavesSome(table) || Intended(table, gateway, packet))
    ensures exists rule :: rule in rules && Matches(rule, packet)
  {
    if !LeavesSome(table) || (IsPublic(table, packet.destination) && packet.destination.V4?) {
      var rule := rules[|ports|];
      assert IsPublic4Rule(table, rule);
      var cidrs :| Division(cidrs, Complement(table)) && rule == Public4Rule(cidrs);
      Public4RuleMatches(table, cidrs, packet);
    } else if IsPublic(table, packet.destination) {
      Public6RuleMatches(packet);
      assert rules[|ports| + 1] in rules;
    } else {
      var port := packet.port;
      assert SocketAddr(packet.destination, port).port == port;
      assert Listens(gateway, port);
      var i :| 0 <= i < |ports| && ports[i] == port;
      assert IsGatewayRule(rules[i], gateway, port);
      var addresses :| Addresses(addresses, gateway, port) && rules[i] == GatewayRule(addresses, port);
      GatewayRuleMatches(addresses, gateway, port, packet);
    }
  }

  // ----- making them

  /** `join`, of the addresses at one port. */
  method AddressesAt(gateway: seq<SocketAddr>, port: nat) returns (addresses: seq<string>)
    ensures Addresses(addresses, gateway, port)
  {
    var texts := [];
    for i := 0 to |gateway|
      invariant forall text :: text in texts <==> ListensAt(gateway[..i], port, text)
    {
      assert gateway[..i + 1] == gateway[..i] + [gateway[i]];
      if gateway[i].port == port {
        texts := texts + [Show(gateway[i].ip)];
      }
    }
    assert gateway[..|gateway|] == gateway;
    PrecedesOrders();
    addresses := SortedUnique(Precedes, texts);
  }

  method PortsOf(gateway: seq<SocketAddr>) returns (ports: seq<nat>)
    ensures Ports(ports, gateway)
  {
    var all: seq<nat> := [];
    for i := 0 to |gateway|
      invariant forall port :: port in all <==> Listens(gateway[..i], port)
    {
      assert gateway[..i + 1] == gateway[..i] + [gateway[i]];
      all := all + [gateway[i].port];
    }
    assert gateway[..|gateway|] == gateway;
    SmallerOrders();
    ports := SortedUnique(Smaller, all);
  }

  /** `rules`, for any table of non-public IPv4 blocks. */
  method RulesFor(table: seq<Block>, gateway: seq<SocketAddr>) returns (rules: seq<Rule>)
    ensures Describe(table, rules, gateway)
    ensures forall packet :: Permits(rules, packet) <==> !LeavesSome(table) || Intended(table, gateway, packet)
  {
    rules := [];
    var ports := PortsOf(gateway);
    for i := 0 to |ports|
      invariant |rules| == i && forall k :: 0 <= k < i ==> IsGatewayRule(rules[k], gateway, ports[k])
    {
      var addresses := AddressesAt(gateway, ports[i]);
      rules := rules + [GatewayRule(addresses, ports[i])];
    }
    var cidrs := PublicCidrs(table);
    rules := rules + [Public4Rule(cidrs)];
    rules := rules + [PUBLIC6_RULE];
    assert Laid(table, rules, gateway, ports);
    forall packet ensures Permits(rules, packet) <==> !LeavesSome(table) || Intended(table, gateway, packet) {
      RulesMean(table, rules, gateway, packet);
    }
  }

  lemma TableLeavesSome()
    ensures LeavesSome(NON_PUBLIC_IPV4)
  {
    assert Pow2(24) == 0x100_0000 by { Pow2Add(12, 12); assert Pow2(12) == 4096; }
    var one := Octets(1, 0, 0, 0);
    assert !Covered(NON_PUBLIC_IPV4, one);
  }

  /** `rules`: a packet is let through exactly when it is meant to be. */
  method Rules(gateway: seq<SocketAddr>) returns (rules: seq<Rule>)
    ensures Describe(NON_PUBLIC_IPV4, rules, gateway)
    ensures forall packet :: Permits(rules, packet) <==> Intended(NON_PUBLIC_IPV4, gateway, packet)
  {
    TableLeavesSome();
    rules := RulesFor(NON_PUBLIC_IPV4, gateway);
  }

  /** How the rules are laid out: one for each port of the gateway, in ascending order,
      for TCP to that port at the addresses listening there; then the public IPv4 and the
      public IPv6 addresses, whatever the protocol and port. */
  lemma RulesLayout(table: seq<Block>, rules: seq<Rule>, gateway: seq<SocketAddr>, ports: seq<nat>, i: nat)
    requires Laid(table, rules, gateway, ports) && i < |rules|
    ensures forall a, b :: 0 <= a < b < |ports| ==> ports[a] < ports[b]
    ensures rules[i].action.Allow? && rules[i].state.Enforced?
    ensures if i < |ports| then
              && rules[i].protocol == Some(Tcp) && rules[i].destinationPort == Digits(ports[i], 10)
              && rules[i].description == "OpenShell gateway"
            else
              && rules[i].protocol == None && rules[i].destinationPort == ""
              && rules[i].description == (if i == |ports| then "public IPv4 internet" else "public IPv6 internet")
  {
    if i < |ports| {
      assert IsGatewayRule(rules[i], gateway, ports[i]);
    } else if i == |ports| {
      assert IsPublic4Rule(table, rules[i]);
    }
    forall a, b | 0 <= a < b < |ports| ensures ports[a] < ports[b] { assert Smaller(ports[a], ports[b]); }
  }

  // ----- one set of endpoints, one list of rules

  ghost predicate SameEndpoints(g: seq<SocketAddr>, h: seq<SocketAddr>) { forall a :: a in g <==> a in h }

  lemma AddressesUnique(a: seq<string>, b: seq<string>, g: seq<SocketAddr>, h: seq<SocketAddr>, port: nat)
    requires Addresses(a, g, port) && Addresses(b, h, port) && SameEndpoints(g, h)
    ensures a == b
  {
    forall text ensures ListensAt(g, port, text) <==> ListensAt(h, port, text) {}
    PrecedesOrders();
    AscendingUnique(Precedes, a, b);
  }

  lemma PortsUnique(p: seq<nat>, q: seq<nat>, g: seq<SocketAddr>, h: seq<SocketAddr>)
    requires Ports(p, g) && Ports(q, h) && SameEndpoints(g, h)
    ensures p == q
  {
    forall port ensures Listens(g, port) <==> Listens(h, port) {}
    AscendingUnique(Smaller, p, q);
  }

  lemma Public4Unique(table: seq<Block>, r: Rule, t: Rule)
    requires IsPublic4Rule(table, r) && IsPublic4Rule(table, t)
    ensures r == t
  {
    var a :| Division(a, Complement(table)) && r == Public4Rule(a);
    var b :| Division(b, Complement(table)) && t == Public4Rule(b);
    DivisionUnique(a, b, Complement(table));
  }

  lemma SameEndpointsSameRules(table: seq<Block>, r: seq<Rule>, g: seq<SocketAddr>, t: seq<Rule>, h: seq<SocketAddr>)
    requires Describe(table, r, g) && Describe(table, t, h) && SameEndpoints(g, h)
    ensures r == t
  {
    var p :| Laid(table, r, g, p);
    var q :| Laid(table, t, h, q);
    PortsUnique(p, q, g, h);
    Public4Unique(table, r[|p|], t[|q|]);
    forall i | 0 <= i < |p| ensures r[i] == t[i] {
      assert IsGatewayRule(r[i], g, p[i]) && IsGatewayRule(t[i], h, p[i]);
      var a :| Addresses(a, g, p[i]) && r[i] == GatewayRule(a, p[i]);
      var b :| Addresses(b, h, p[i]) && t[i] == GatewayRule(b, p[i]);
      AddressesUnique(a, b, g, h, p[i]);
    }
  }

  /** Equal rules list the same addresses at the same ports. */
  lemma RuleTells(a: seq<string>, b: seq<string>, g: seq<SocketAddr>, h: seq<SocketAddr>, p: nat, q: nat)
    requires Addresses(a, g, p) && Addresses(b, h, q) && a != [] && b != []
    requires GatewayRule(a, p) == GatewayRule(b, q)
    ensures a == b && p == q
  {
    forall i | 0 <= i < |a| ensures ',' !in a[i] { GatewayPieces(a, g, p, i); }
    forall i | 0 <= i < |b| ensures ',' !in b[i] { GatewayPieces(b, h, q, i); }
    SplitJoin(a, ',');
    SplitJoin(b, ',');
    DigitsBack(p, 10);
    DigitsBack(q, 10);
  }

  lemma SameRulesListed(table: seq<Block>, r: seq<Rule>, g: seq<SocketAddr>, h: seq<SocketAddr>, x: SocketAddr)
    requires Describe(table, r, g) && Describe(table, r, h) && x in g
    ensures x in h
  {
    var p :| Laid(table, r, g, p);
    var q :| Laid(table, r, h, q);
    assert Listens(g, x.port);
    var i :| 0 <= i < |p| && p[i] == x.port;
    assert IsGatewayRule(r[i], g, p[i]) && IsGatewayRule(r[i], h, q[i]);
    var a :| Addresses(a, g, p[i]) && r[i] == GatewayRule(a, p[i]);
    var b :| Addresses(b, h, q[i]) && r[i] == GatewayRule(b, q[i]);
    assert ListensAt(g, x.port, Show(x.ip));
    assert Show(x.ip) in a;
    PortListens(h, q, i);
    var y :| y in h && y.port == q[i];
    assert ListensAt(h, q[i], Show(y.ip));
    assert Show(y.ip) in b;
    RuleTells(a, b, g, h, p[i], q[i]);
    var z :| z in h && z.port == x.port && Show(z.ip) == Show(x.ip);
    ReadBack(z.ip);
    ReadBack(x.ip);
    assert z == x;
  }

  /** Two gateways get equal rules exactly when they have the same endpoints, in
      whatever order and however often listed. */
  lemma RulesCanonical(table: seq<Block>, r: seq<Rule>, g: seq<SocketAddr>, t: seq<Rule>, h: seq<SocketAddr>)
    requires Describe(table, r, g) && Describe(table, t, h)
    ensures r == t <==> SameEndpoints(g, h)
  {
    if SameEndpoints(g, h) { SameEndpointsSameRules(table, r, g, t, h); }
    if r == t {
      forall x ensures x in g <==> x in h {
        if x in g { SameRulesListed(table, r, g, h, x); }
        if x in h { SameRulesListed(table, r, h, g, x); }
      }
    }
  }

  /** Ensuring the ACL again for a gateway with the same endpoints writes nothing. */
  lemma SecondEnsureWritesNothing(
      s: AclSync.State, before: seq<AclSync.Step>, u: nat, t: nat, name: string, after: seq<AclSync.Step>,
      table: seq<Block>, r: seq<Rule>, g: seq<SocketAddr>, again: seq<Rule>, h: seq<SocketAddr>)
    requires Describe(table, r, g) && Describe(table, again, h) && SameEndpoints(g, h)
    requires AclSync.Start(s) && AclSync.Allowed(s, before) && AclSync.AllAgree(before, name, r)
    requires AclSync.At(AclSync.Exec(s, before), u, AclSync.Done(true)) && AclSync.Exec(s, before).tasks[u].name == name
    requires AclSync.Enabled(AclSync.Exec(s, before), AclSync.Call(t, name, again))
    requires AclSync.Allowed(AclSync.Apply(AclSync.Exec(s, before), AclSync.Call(t, name, again)), after)
    requires AclSync.AllAgree(after, name, again)
    ensures t !in AclSync.Exec(AclSync.Apply(AclSync.Exec(s, before), AclSync.Call(t, name, again)), after).writers
  {
    RulesCanonical(table, r, g, again, h);
    AclSync.LaterCallWritesNothing(s, before, u, t, name, r, after);
  }

  // ----- the non-public addresses

  /** The addresses the table leaves out, written out. */
  predicate Reserved(a: int) {
    || 0 <= a < 0x0100_0000                  // 0.0.0.0/8
    || 0x0A00_0000 <= a < 0x0B00_0000        // 10.0.0.0/8
    || 0x6440_0000 <= a < 0x6480_0000        // 100.64.0.0/10
    || 0x7F00_0000 <= a < 0x8000_0000        // 127.0.0.0/8
    || 0xA9FE_0000 <= a < 0xA9FF_0000        // 169.254.0.0/16
    || 0xAC10_0000 <= a < 0xAC20_0000        // 172.16.0.0/12
    || 0xC000_0000 <= a < 0xC000_0100        // 192.0.0.0/24
    || 0xC000_0200 <= a < 0xC000_0300        // 192.0.2.0/24
    || 0xC058_6300 <= a < 0xC058_6400        // 192.88.99.0/24
    || 0xC0A8_0000 <= a < 0xC0A9_0000        // 192.168.0.0/16
    || 0xC612_0000 <= a < 0xC614_0000        // 198.18.0.0/15
    || 0xC633_6400 <= a < 0xC633_6500        // 198.51.100.0/24
    || 0xCB00_7100 <= a < 0xCB00_7200        // 203.0.113.0/24
    || 0xE000_0000 <= a < 0x1_0000_0000      // 224.0.0.0/4 and 240.0.0.0/4
  }

  lemma BlockSizes()
    ensures Pow2(8) == 0x100 && Pow2(16) == 0x1_0000 && Pow2(17) == 0x2_0000 && Pow2(20) == 0x10_0000
    ensures Pow2(22) == 0x40_0000 && Pow2(24) == 0x100_0000 && Pow2(28) == 0x1000_0000
  {
    assert Pow2(8) == 0x100;
    Pow2Add(8, 8);
    Pow2Add(16, 1);
    Pow2Add(4, 16);
    Pow2Add(6, 16);
    Pow2Add(8, 16);
    Pow2Add(12, 16);
    Pow2Add(4, 8);
  }

  lemma NonPublicIs(a: int)
    ensures Covered(NON_PUBLIC_IPV4, a) <==> Reserved(a)
  {
    BlockSizes();
    var t := NON_PUBLIC_IPV4;
    if Reserved(a) {
      assert || t[0].Has(a) || t[1].Has(a) || t[2].Has(a) || t[3].Has(a) || t[4].Has(a) || t[5].Has(a) || t[6].Has(a)
             || t[7].Has(a) || t[8].Has(a) || t[9].Has(a) || t[10].Has(a) || t[11].Has(a) || t[12].Has(a)
             || t[13].Has(a) || t[14].Has(a);
    }
  }
}
