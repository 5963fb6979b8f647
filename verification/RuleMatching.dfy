/** What the texts in a rule name: single addresses, IPv4 blocks, the public IPv6
    block, and ports. */
module RuleMatching {
  import opened Common
  import opened Text
  import opened Numerals
  import opened IpText
  import opened Acls
  import Cidr

  lemma SlashReads(address: string, length: string, ip: IpAddr, n: nat)
    requires '/' !in address && Read(address) == Some(ip)
    requires length != "" && ParseDigits(length, 10) == Some(n) && n <= Width(ip)
    ensures ReadSubject(address + "/" + length) == Some(Subject(ip, n))
  {
    AbsentByte("/", address);
    FoundWherePut(address, "/", length);
  }

  // ----- a single address

  lemma {:induction false} NumberInjective(a: seq<Word>, b: seq<Word>)
    requires |a| == |b| && Number(a) == Number(b)
    ensures a == b
  {
    if a != [] {
      Cidr.DivUnique(Number(Init(a)), Last(a), Number(Init(b)), Last(b), 0x1_0000);
      NumberInjective(Init(a), Init(b));
      assert a == Init(a) + [Last(a)] && b == Init(b) + [Last(b)];
    }
  }

  lemma WholeHas(a: IpAddr, ip: IpAddr)
    ensures Has(Subject(a, Width(a)), ip) <==> a == ip
  {
    assert Cidr.Pow2(0) == 1;
    if a.V6? && ip.V6? && Number(a.words) == Number(ip.words) {
      NumberInjective(a.words, ip.words);
    }
  }

  lemma AddressNames(a: IpAddr, ip: IpAddr)
    ensures NamesAddress(Show(a), ip) <==> a == ip
  {
    ShowLacks(a, '/');
    ReadBack(a);
    WholeHas(a, ip);
  }

  lemma ShowNotEmpty(a: IpAddr)
    ensures Show(a) != ""
  {
    ReadBack(a);
    assert Read("") == None;
  }

  // ----- an IPv4 block

  function CidrText(b: Cidr.Block): string { Show4(b.address) + "/" + Digits(b.prefix, 10) }

  lemma BlockReads(b: Cidr.Block)
    ensures ReadSubject(CidrText(b)) == Some(Subject(V4(b.address), b.prefix))
  {
    Show4Lacks(b.address, '/');
    ReadBack(V4(b.address));
    DigitsBack(b.prefix, 10);
    SlashReads(Show4(b.address), Digits(b.prefix, 10), V4(b.address), b.prefix);
  }

  lemma BlockNames(b: Cidr.Block, ip: IpAddr)
    requires b.IsCidr()
    ensures NamesAddress(CidrText(b), ip) <==> ip.V4? && b.Has(ip.address)
  {
    BlockReads(b);
    if ip.V4? { Cidr.HasByBits(b, ip.address); }
  }

  lemma CidrTextLacks(b: Cidr.Block, c: char)
    requires Foreign(c) && c != '/'
    ensures c !in CidrText(b)
  {
    Show4Lacks(b.address, c);
    DigitsAbsent(b.prefix, 10, c);
  }

  // ----- the public IPv6 block

  const PUBLIC_IPV6 := "2000::/3"

  lemma {:induction false} NumberTop(words: seq<Word>)
    requires words != []
    ensures Number(words[1..]) < Cidr.Pow2(16 * (|words| - 1))
    ensures Number(words) == words[0] * Cidr.Pow2(16 * (|words| - 1)) + Number(words[1..])
  {
    if |words| == 1 {
      assert Init(words) == [] && words[1..] == [];
    } else {
      NumberTop(Init(words));
      assert Init(words)[1..] == Init(words[1..]) && Last(words[1..]) == Last(words);
      Shift(words[0], 16 * (|words| - 2), Number(Init(words[1..])), Last(words));
    }
  }

  lemma Shift(top: nat, k: nat, rest: nat, low: Word)
    requires rest < Cidr.Pow2(k)
    ensures rest * 0x1_0000 + low < Cidr.Pow2(k + 16)
    ensures (top * Cidr.Pow2(k) + rest) * 0x1_0000 + low == top * Cidr.Pow2(k + 16) + (rest * 0x1_0000 + low)
  {
    Cidr.Pow2Add(k, 16);
    assert Cidr.Pow2(16) == 0x1_0000 by { Cidr.Pow2Add(8, 8); assert Cidr.Pow2(8) == 256; }
    Cidr.MulAssociates(top, Cidr.Pow2(k), 0x1_0000);
  }

  lemma TopBits(words: Words8)
    ensures Number(words) / Cidr.Pow2(125) == words[0] / 0x2000
  {
    NumberTop(words);
    var p, rest := Cidr.Pow2(112), Number(words[1..]);
    Cidr.Pow2Add(13, 112);
    assert Cidr.Pow2(13) == 0x2000 by { Cidr.Pow2Add(5, 8); assert Cidr.Pow2(8) == 256 && Cidr.Pow2(5) == 32; }
    TopQuotient(words[0], p, rest);
  }

  lemma TopQuotient(top: nat, p: nat, rest: nat)
    requires rest < p
    ensures (top * p + rest) / (0x2000 * p) == top / 0x2000
  {
    var h, l := top / 0x2000, top % 0x2000;
    assert top * p == h * (0x2000 * p) + l * p by {
      assert top == h * 0x2000 + l;
      Cidr.MulAssociates(h, 0x2000, p);
    }
    Cidr.MulMonotone(l + 1, 0x2000, p);
    Cidr.QuotientOf(top * p + rest, h, l * p + rest, 0x2000 * p);
  }

  lemma ThreeReads()
    ensures ParseDigits("3", 10) == Some(3)
  {
    assert ParseDigits("", 10) == Some(0);
    assert Init("3") == "" && Last("3") == '3';
  }

  lemma PublicBlockText(address: string, length: string)
    requires address == "2000::" && length == "3"
    ensures PUBLIC_IPV6 == address + "/" + length
  {
  }

  lemma PublicBlockReads()
    ensures ReadSubject(PUBLIC_IPV6) == Some(Subject(V6([0x2000] + Zeros(7)), 3))
  {
    BaseReads();
    ThreeReads();
    PublicBlockText("2000::", "3");
    SlashReads("2000::", "3", V6([0x2000] + Zeros(7)), 3);
  }

  lemma FirstWordReads(first: string, word: Word)
    requires WordsOf(first) == Some([word]) && first != "" && ':' !in first
    ensures Read(first + "::") == Some(V6([word] + Zeros(7)))
  {
    GapBack([first], []);
    AroundText([first], []);
    assert first + "::" + "" == first + "::";
    AllWordsCons(first, [], [word], []);
    assert [first] + [] == [first] && [word] + [] == [word];
    assert [word] + Zeros(7) + [] == [word] + Zeros(7);
    assert (first + "::")[|first|] == ':';
  }

  lemma BaseReads()
    ensures Read("2000::") == Some(V6([0x2000] + Zeros(7)))
  {
    TwoThousand();
    FirstWordReads("2000", 0x2000);
    assert "2000" + "::" == "2000::";
  }

  lemma TwoThousand()
    ensures WordsOf("2000") == Some([0x2000])
  {
    assert ParseDigits("", 16) == Some(0);
    assert Init("2") == "" && ParseDigits("2", 16) == Some(2);
    assert Init("20") == "2" && ParseDigits("20", 16) == Some(32);
    assert Init("200") == "20" && ParseDigits("200", 16) == Some(512);
    assert Init("2000") == "200" && ParseDigits("2000", 16) == Some(8192);
  }

  /** Global unicast IPv6. */
  predicate IsGlobalUnicast(words: Words8) { 0x2000 <= words[0] < 0x4000 }

  lemma TopThreeBitsName(piece: string, words: Words8, ip: IpAddr)
    requires ReadSubject(piece) == Some(Subject(V6(words), 3)) && words[0] == 0x2000
    ensures NamesAddress(piece, ip) <==> ip.V6? && IsGlobalUnicast(ip.words)
  {
    TopBits(words);
    if ip.V6? { TopBits(ip.words); }
  }

  lemma PublicBlockNames(ip: IpAddr)
    ensures NamesAddress(PUBLIC_IPV6, ip) <==> ip.V6? && IsGlobalUnicast(ip.words)
  {
    PublicBlockReads();
    TopThreeBitsName(PUBLIC_IPV6, [0x2000] + Zeros(7), ip);
  }

  // ----- ports

  lemma PortNames(p: nat, port: nat)
    ensures PortMatches(Digits(p, 10), port) <==> p == port
  {
    DigitsAbsent(p, 10, '-');
    CutHas('-', Digits(p, 10));
    DigitsBack(p, 10);
  }
}
