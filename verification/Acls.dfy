/** Network ACL rules: what they match, and how they are written as JSON and
    compared (crates/lxd-client/src/acls.rs). */
module Acls {
  import opened Common
  import opened Text
  import opened Numerals
  import opened IpText
  import Cidr

  datatype Action = Allow | Drop | Reject
  datatype Protocol = Tcp | Udp | Icmp
  datatype Enforcement = Enforced | Ignored

  datatype Rule = Rule(
    action: Action,
    destination: string,
    destinationPort: string,
    protocol: Option<Protocol>,
    description: string,
    state: Enforcement)

  function AllowEgress(destination: string, protocol: Option<Protocol>, port: string, description: string): Rule {
    Rule(Allow, destination, port, protocol, description, Enforced)
  }

  // ----- what a rule matches

  /** A packet on its way out; `protocol` is absent when a rule cannot name it. */
  datatype Packet = Packet(protocol: Option<Protocol>, destination: IpAddr, port: nat)

  /** An address and how many of its leading bits count. */
  datatype Subject = Subject(base: IpAddr, prefix: nat)

  function Width(ip: IpAddr): nat { if ip.V4? then 32 else 128 }

  function Number(words: seq<Word>): nat {
    if words == [] then 0 else Number(Init(words)) * 0x1_0000 + Last(words)
  }

  function Bits(ip: IpAddr): nat {
    match ip
    case V4(a) => a
    case V6(words) => Number(words)
  }

  predicate Has(subject: Subject, ip: IpAddr)
    requires subject.prefix <= Width(subject.base)
  {
    && subject.base.V4? == ip.V4?
    && var unit := Cidr.Pow2(Width(ip) - subject.prefix); Bits(ip) / unit == Bits(subject.base) / unit
  }

  /** An address, or a CIDR. */
  function ReadSubject(s: string): (r: Option<Subject>)
    ensures r.Some? ==> r.value.prefix <= Width(r.value.base)
  {
    match Cut("/", s)
    case None =>
      (match Read(s)
       case None => None
       case Some(ip) => Some(Subject(ip, Width(ip))))
    case Some((address, length)) =>
      (match (Read(address), ParseDigits(length, 10))
       case (Some(ip), Some(n)) => if length != "" && n <= Width(ip) then Some(Subject(ip, n)) else None
       case _ => None)
  }

  predicate NamesAddress(piece: string, ip: IpAddr) {
    var subject := ReadSubject(piece);
    subject.Some? && Has(subject.value, ip)
  }

  /** A comma-separated list; an empty one matches any destination. */
  ghost predicate DestinationMatches(destination: string, ip: IpAddr) {
    destination == "" || exists piece :: piece in Split(destination, ',') && NamesAddress(piece, ip)
  }

  /** A port or a range of ports; an empty text matches any port. */
  predicate PortMatches(text: string, port: nat) {
    text == ""
    || match Cut("-", text)
       case None => ParseDigits(text, 10) == Some(port)
       case Some((low, high)) =>
         var (l, h) := (ParseDigits(low, 10), ParseDigits(high, 10));
         l.Some? && h.Some? && l.value <= port <= h.value
  }

  ghost predicate Matches(rule: Rule, packet: Packet) {
    && rule.state.Enforced?
    && (rule.protocol.Some? ==> rule.protocol == packet.protocol)
    && DestinationMatches(rule.destination, packet.destination)
    && PortMatches(rule.destinationPort, packet.port)
  }

  /** LXD lets drop and reject rules win over allow rules. */
  ghost predicate Permits(rules: seq<Rule>, packet: Packet) {
    && (exists rule :: rule in rules && rule.action.Allow? && Matches(rule, packet))
    && (forall rule :: rule in rules && Matches(rule, packet) ==> rule.action.Allow?)
  }

  // ----- JSON

  datatype Json =
    | Null
    | Bool(value: bool)
    | Numeral(number: int)
    | String(text: string)
    | Array(items: seq<Json>)
    | Object(fields: map<string, Json>)

  function ActionText(a: Action): string {
    match a
    case Allow => "allow"
    case Drop => "drop"
    case Reject => "reject"
  }

  function ProtocolText(p: Option<Protocol>): string {
    match p
    case None => ""
    case Some(Tcp) => "tcp"
    case Some(Udp) => "udp"
    case Some(Icmp) => "icmp"
  }

  function StateText(s: Enforcement): string { if s.Enforced? then "enabled" else "disabled" }

  function Fields(rule: Rule): seq<(string, string)> {
    [ ("action", ActionText(rule.action)),
      ("description", rule.description),
      ("destination", rule.destination),
      ("destination_port", rule.destinationPort),
      ("protocol", ProtocolText(rule.protocol)),
      ("state", StateText(rule.state)) ]
  }

  /** The entry under `key`, or the empty text when it was left out. */
  function Entry(json: Json, key: string): string {
    if json.Object? && key in json.fields && json.fields[key].String? then json.fields[key].text else ""
  }

  function ActionOf(s: string): Option<Action> {
    if s == "allow" then Some(Allow) else if s == "drop" then Some(Drop)
    else if s == "reject" then Some(Reject) else None
  }

  function ProtocolOf(s: string): Option<Option<Protocol>> {
    if s == "" then Some(None) else if s == "tcp" then Some(Some(Tcp))
    else if s == "udp" then Some(Some(Udp)) else if s == "icmp" then Some(Some(Icmp)) else None
  }

  function StateOf(s: string): Option<Enforcement> {
    if s == "enabled" then Some(Enforced) else if s == "disabled" then Some(Ignored) else None
  }

  /** A rule read back from its JSON, with what is missing taken as unset. */
  function RuleOf(json: Json): Option<Rule> {
    var a := ActionOf(Entry(json, "action"));
    var p := ProtocolOf(Entry(json, "protocol"));
    var s := StateOf(Entry(json, "state"));
    if a.Some? && p.Some? && s.Some?
    then Some(Rule(a.value, Entry(json, "destination"), Entry(json, "destination_port"), p.value,
                   Entry(json, "description"), s.value))
    else None
  }

  /** The entries that are set, as JSON. */
  function JsonFields(entries: seq<(string, string)>): map<string, Json> {
    if entries == [] then map[]
    else
      var (key, value) := Last(entries);
      if value == "" then JsonFields(Init(entries)) else JsonFields(Init(entries))[key := String(value)]
  }

  function JsonOf(rule: Rule): Json { Object(JsonFields(Fields(rule))) }

  /** The object that holds exactly the fields that are set. */
  ghost predicate Holds(fields: map<string, Json>, entries: seq<(string, string)>) {
    && (forall i :: 0 <= i < |entries| ==>
          if entries[i].1 == "" then entries[i].0 !in fields
          else entries[i].0 in fields && fields[entries[i].0] == String(entries[i].1))
    && (forall key :: key in fields ==> exists i :: 0 <= i < |entries| && entries[i].0 == key)
  }

  lemma FieldKeysDiffer(rule: Rule)
    ensures forall i, j :: 0 <= i < j < 6 ==> Fields(rule)[i].0 != Fields(rule)[j].0
  {
    var f := Fields(rule);
    assert f[0].0[0] == 'a' && f[4].0[0] == 'p' && f[5].0[0] == 's';
    assert |f[1].0| == 11 && |f[2].0| == 11 && |f[3].0| == 16;
    assert f[1].0[2] == 's' && f[2].0[2] == 's' && f[1].0[3] == 'c' && f[2].0[3] == 't';
  }

  /** `to_json` */
  method ToJson(rule: Rule) returns (json: Json)
    ensures json == JsonOf(rule)
    ensures RuleOf(json) == Some(rule)
  {
    var entries := Fields(rule);
    var fields: map<string, Json> := map[];
    for i := 0 to |entries|
      invariant fields == JsonFields(entries[..i])
    {
      assert Init(entries[..i + 1]) == entries[..i] && Last(entries[..i + 1]) == entries[i];
      if entries[i].1 != "" {
        fields := fields[entries[i].0 := String(entries[i].1)];
      }
    }
    assert entries[..|entries|] == entries;
    json := Object(fields);
    RuleBack(rule);
  }

  lemma {:induction false} JsonFieldsHold(entries: seq<(string, string)>)
    requires forall i, j :: 0 <= i < j < |entries| ==> entries[i].0 != entries[j].0
    ensures Holds(JsonFields(entries), entries)
  {
    if entries != [] {
      JsonFieldsHold(Init(entries));
      var (key, value) := Last(entries);
      HoldsSnoc(JsonFields(Init(entries)), Init(entries), key, value);
      assert entries == Init(entries) + [(key, value)];
    }
  }

  lemma HoldsSnoc(fields: map<string, Json>, entries: seq<(string, string)>, key: string, value: string)
    requires Holds(fields, entries) && forall i :: 0 <= i < |entries| ==> entries[i].0 != key
    ensures Holds(if value != "" then fields[key := String(value)] else fields, entries + [(key, value)])
  {
    var all := entries + [(key, value)];
    var more := if value != "" then fields[key := String(value)] else fields;
    forall k | k in more ensures exists i :: 0 <= i < |all| && all[i].0 == k {
      if k == key {
        assert all[|entries|].0 == k;
      } else {
        var i :| 0 <= i < |entries| && entries[i].0 == k;
        assert all[i].0 == k;
      }
    }
  }

  lemma EntryIs(rule: Rule, i: nat, key: string)
    requires i < 6 && Fields(rule)[i].0 == key
    ensures Entry(JsonOf(rule), key) == Fields(rule)[i].1
  {
    FieldKeysDiffer(rule);
    JsonFieldsHold(Fields(rule));
  }

  /** A rule reads back from its JSON: leaving out empty fields loses nothing. */
  lemma RuleBack(rule: Rule)
    ensures RuleOf(JsonOf(rule)) == Some(rule)
  {
    EntryIs(rule, 0, "action");
    EntryIs(rule, 1, "description");
    EntryIs(rule, 2, "destination");
    EntryIs(rule, 3, "destination_port");
    EntryIs(rule, 4, "protocol");
    EntryIs(rule, 5, "state");
  }

  // ----- comparing

  function Get(json: Json, key: string): Option<Json> {
    if json.Object? && key in json.fields then Some(json.fields[key]) else None
  }

  function Items(json: Json, key: string): seq<Json> {
    match Get(json, key)
    case Some(Array(items)) => items
    case _ => []
  }

  /** `acl_matches` */
  predicate AclMatches(current: Json, desired: Json) {
    && Get(current, "description") == Get(desired, "description")
    && Items(current, "egress") == Items(desired, "egress")
    && Items(current, "ingress") == Items(desired, "ingress")
  }

  /** An ACL in LXD, as far as the driver manages it. */
  datatype Acl = Acl(description: string, egress: seq<Json>, ingress: seq<Json>)

  const DESCRIPTION := "OpenShell sandbox egress policy"

  function Jsons(rules: seq<Rule>): (r: seq<Json>)
    ensures |r| == |rules| && forall i :: 0 <= i < |rules| ==> r[i] == JsonOf(rules[i])
  {
    seq(|rules|, i requires 0 <= i < |rules| => JsonOf(rules[i]))
  }

  function Wanted(rules: seq<Rule>): Acl { Acl(DESCRIPTION, Jsons(rules), []) }

  /** The body of an update. */
  function UpdateBody(rules: seq<Rule>): Json {
    Object(map["description" := String(DESCRIPTION), "egress" := Array(Jsons(rules)),
               "ingress" := Array([]), "config" := Object(map[])])
  }

  /** An ACL as LXD returns it, among whatever other fields. */
  function Shown(acl: Acl, others: map<string, Json>): Json {
    Object(others + map["description" := String(acl.description),
                        "egress" := Array(acl.egress), "ingress" := Array(acl.ingress)])
  }

  /** The comparison tells exactly whether LXD has the wanted ACL, whatever else it
      returns with it. */
  lemma MatchesIffWanted(acl: Acl, others: map<string, Json>, rules: seq<Rule>)
    ensures AclMatches(Shown(acl, others), UpdateBody(rules)) <==> acl == Wanted(rules)
  {
    var shown, body := Shown(acl, others), UpdateBody(rules);
    assert Get(shown, "description") == Some(String(acl.description));
    assert Get(body, "description") == Some(String(DESCRIPTION));
    assert Items(shown, "egress") == acl.egress && Items(body, "egress") == Jsons(rules);
    assert Items(shown, "ingress") == acl.ingress && Items(body, "ingress") == [];
  }

  /** Different rules want different ACLs. */
  lemma WantedInjective(a: seq<Rule>, b: seq<Rule>)
    ensures Wanted(a) == Wanted(b) <==> a == b
  {
    if Wanted(a) == Wanted(b) {
      assert |a| == |Jsons(a)| == |b|;
      forall i | 0 <= i < |a| ensures a[i] == b[i] {
        RuleBack(a[i]);
        RuleBack(b[i]);
        assert Jsons(a)[i] == Jsons(b)[i];
      }
    }
  }

  // ----- what the driver's rules look like

  lemma FieldsAre(rule: Rule, fields: map<string, Json>)
    requires Holds(fields, Fields(rule))
    ensures JsonOf(rule) == Object(fields)
  {
    FieldKeysDiffer(rule);
    JsonFieldsHold(Fields(rule));
    HoldsUnique(JsonFields(Fields(rule)), fields, Fields(rule));
  }

  lemma HoldsUnique(f: map<string, Json>, g: map<string, Json>, entries: seq<(string, string)>)
    requires Holds(f, entries) && Holds(g, entries)
    ensures f == g
  {
    forall key ensures key in f <==> key in g
               ensures key in f && key in g ==> f[key] == g[key]
    {
      if key in f || key in g {
        var i :| 0 <= i < |entries| && entries[i].0 == key;
        assert key in f <==> entries[i].1 != "";
      }
    }
  }

  /** The rule for the gateway, as LXD returns it. */
  lemma GatewayRuleJson(destination: string, port: string, description: string)
    requires destination != "" && port != "" && description != ""
    ensures JsonOf(AllowEgress(destination, Some(Tcp), port, description)) ==
            Object(map["action" := String("allow"), "description" := String(description),
                       "destination" := String(destination), "destination_port" := String(port),
                       "protocol" := String("tcp"), "state" := String("enabled")])
  {
    var rule := AllowEgress(destination, Some(Tcp), port, description);
    assert |"allow"| == 5 && |"tcp"| == 3 && |"enabled"| == 7;
    FieldKeysDiffer(rule);
    AllSet(Fields(rule));
    FieldsAre(rule, SetFields(Fields(rule)));
  }

  /** The rule for public addresses: no protocol and no port. */
  lemma PublicRuleJson(destination: string, description: string)
    requires destination != "" && description != ""
    ensures JsonOf(AllowEgress(destination, None, "", description)) ==
            Object(map["action" := String("allow"), "description" := String(description),
                       "destination" := String(destination), "state" := String("enabled")])
  {
    var rule := AllowEgress(destination, None, "", description);
    assert |"allow"| == 5 && |"enabled"| == 7;
    FieldKeysDiffer(rule);
    FourSet(Fields(rule));
    FieldsAre(rule, FourFields(Fields(rule)));
  }

  function FourFields(e: seq<(string, string)>): map<string, Json>
    requires |e| == 6
  {
    map[e[0].0 := String(e[0].1), e[1].0 := String(e[1].1), e[2].0 := String(e[2].1), e[5].0 := String(e[5].1)]
  }

  function SetFields(e: seq<(string, string)>): map<string, Json>
    requires |e| == 6
  {
    map[e[0].0 := String(e[0].1), e[1].0 := String(e[1].1), e[2].0 := String(e[2].1),
        e[3].0 := String(e[3].1), e[4].0 := String(e[4].1), e[5].0 := String(e[5].1)]
  }

  lemma AllSet(e: seq<(string, string)>)
    requires |e| == 6 && (forall i, j :: 0 <= i < j < 6 ==> e[i].0 != e[j].0) && forall i :: 0 <= i < 6 ==> e[i].1 != ""
    ensures Holds(SetFields(e), e)
  {
  }

  lemma FourSet(e: seq<(string, string)>)
    requires |e| == 6 && forall i, j :: 0 <= i < j < 6 ==> e[i].0 != e[j].0
    requires e[0].1 != "" && e[1].1 != "" && e[2].1 != "" && e[3].1 == "" && e[4].1 == "" && e[5].1 != ""
    ensures Holds(FourFields(e), e)
  {
  }

  lemma WantedSays(rules: seq<Rule>)
    ensures Wanted(rules).description == "OpenShell sandbox egress policy" && Wanted(rules).ingress == []
    ensures |Wanted(rules).egress| == |rules|
    ensures forall i :: 0 <= i < |rules| ==> Wanted(rules).egress[i] == JsonOf(rules[i])
  {
  }
}
