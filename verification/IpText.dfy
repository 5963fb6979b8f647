/** IP addresses as text: how the driver writes them and how they read back. The
    notation is Rust's, which for IPv6 is that of section 4 of RFC 5952. */
module IpText {
  import opened Common
  import opened Text
  import opened Numerals
  import Cidr

  type Word = n: nat | n < 0x1_0000
  type Words8 = s: seq<Word> | |s| == 8 witness [0, 0, 0, 0, 0, 0, 0, 0]

  datatype IpAddr = V4(address: Cidr.Address) | V6(words: Words8)

  // ----- writing

  function Octets(a: Cidr.Address): seq<string> {
    [ Digits(a / 0x100_0000, 10), Digits(a / 0x1_0000 % 0x100, 10),
      Digits(a / 0x100 % 0x100, 10), Digits(a % 0x100, 10) ]
  }

  function Show4(a: Cidr.Address): string { Join(Octets(a), '.') }

  function Hexes(words: seq<Word>): seq<string> {
    if words == [] then [] else [Digits(words[0], 16)] + Hexes(words[1..])
  }

  /** A run of zero words. */
  datatype Run = Run(start: nat, len: nat) {
    predicate Zeros(words: seq<Word>) {
      start + len <= |words| && forall i :: start <= i < start + len ==> words[i] == 0
    }
  }

  /** The first of the longest runs of zero words. */
  function LongestZeros(words: seq<Word>, i: nat, current: Run, longest: Run): (r: Run)
    requires i <= |words| && current.Zeros(words) && longest.Zeros(words)
    requires current.len > 0 ==> current.start + current.len == i
    ensures r.Zeros(words) && r.len >= longest.len && (r == longest || r.len > longest.len)
    decreases |words| - i
  {
    if i == |words| then longest
    else if words[i] != 0 then LongestZeros(words, i + 1, Run(0, 0), longest)
    else
      var extended := if current.len == 0 then Run(i, 1) else Run(current.start, current.len + 1);
      LongestZeros(words, i + 1, extended, if extended.len > longest.len then extended else longest)
  }

  /** The parts between the colons of `left::right`. */
  function Around(left: seq<string>, right: seq<string>): seq<string> {
    (if left == [] then [""] else left) + [""] + (if right == [] then [""] else right)
  }

  /** What a gap looks like. */
  lemma AroundText(left: seq<string>, right: seq<string>)
    ensures Join(Around(left, right), ':') == Join(left, ':') + "::" + Join(right, ':')
  {
    var l, r := if left == [] then [""] else left, if right == [] then [""] else right;
    assert Join(l, ':') == Join(left, ':') && Join(r, ':') == Join(right, ':');
    assert l + [""] + r == l + ([""] + r);
    JoinConcat(l, [""] + r, ':');
    JoinConcat([""], r, ':');
  }

  function Combine(high: Word, low: Word): Cidr.Address {
    var h: int := high;
    h * 0x1_0000 + low
  }

  predicate IsMapped(words: Words8) { Run(0, 5).Zeros(words) && words[5] == 0xffff }

  function Parts6(words: Words8): seq<string> {
    if IsMapped(words) then Around([], ["ffff", Show4(Combine(words[6], words[7]))])
    else
      var zeros := LongestZeros(words, 0, Run(0, 0), Run(0, 0));
      if zeros.len > 1 then Around(Hexes(words[..zeros.start]), Hexes(words[zeros.start + zeros.len..]))
      else Hexes(words)
  }

  function Show(ip: IpAddr): string {
    match ip
    case V4(a) => Show4(a)
    case V6(words) => Join(Parts6(words), ':')
  }

  // ----- reading

  function Octet(s: string): Option<nat> {
    match ParseDigits(s, 10)
    case None => None
    case Some(n) => if s != "" && n < 0x100 then Some(n) else None
  }

  function Read4(s: string): Option<Cidr.Address> {
    var parts := Split(s, '.');
    if |parts| != 4 then None
    else match (Octet(parts[0]), Octet(parts[1]), Octet(parts[2]), Octet(parts[3]))
      case (Some(a), Some(b), Some(c), Some(d)) =>
        var n := ((a * 0x100 + b) * 0x100 + c) * 0x100 + d;
        if n < Cidr.SPACE then Some(n) else None
      case _ => None
  }

  /** One word in hexadecimal, or two as an IPv4 address. */
  function WordsOf(part: string): Option<seq<Word>> {
    if '.' in part then
      match Read4(part)
      case None => None
      case Some(a) => Some([a / 0x1_0000, a % 0x1_0000])
    else
      match ParseDigits(part, 16)
      case None => None
      case Some(n) => if part != "" && n < 0x1_0000 then Some([n]) else None
  }

  function AllWords(parts: seq<string>): Option<seq<Word>> {
    if parts == [] then Some([])
    else match (WordsOf(parts[0]), AllWords(parts[1..]))
      case (Some(a), Some(b)) => Some(a + b)
      case _ => None
  }

  /** A gap at either end shows as one empty part more. */
  function Trim(parts: seq<string>): seq<string> {
    var a := if |parts| >= 2 && parts[0] == "" && parts[1] == "" then parts[1..] else parts;
    if |a| >= 2 && a[|a| - 1] == "" && a[|a| - 2] == "" then a[..|a| - 1] else a
  }

  function GapAt(parts: seq<string>): (i: nat)
    ensures i <= |parts|
  {
    if parts == [] || parts[0] == "" then 0 else 1 + GapAt(parts[1..])
  }

  function Zeros(n: nat): (s: seq<Word>)
    ensures |s| == n && forall i :: 0 <= i < n ==> s[i] == 0
  {
    seq(n, _ => 0)
  }

  function Whole(words: Option<seq<Word>>): Option<Words8> {
    match words
    case None => None
    case Some(w) => if |w| == 8 then Some(w) else None
  }

  function Filled(left: Option<seq<Word>>, right: Option<seq<Word>>): Option<Words8> {
    if left.Some? && right.Some? && |left.value| + |right.value| < 8
    then Some(left.value + Zeros(8 - |left.value| - |right.value|) + right.value)
    else None
  }

  function ReadParts(parts: seq<string>): Option<Words8> {
    var gap := GapAt(parts);
    if gap == |parts| then Whole(AllWords(parts)) else Filled(AllWords(parts[..gap]), AllWords(parts[gap + 1..]))
  }

  function Read6(s: string): Option<Words8> { ReadParts(Trim(Split(s, ':'))) }

  function Read(s: string): Option<IpAddr> {
    if ':' in s then
      match Read6(s)
      case None => None
      case Some(words) => Some(V6(words))
    else
      match Read4(s)
      case None => None
      case Some(a) => Some(V4(a))
  }

  // ----- reading back what was written

  lemma OctetBack(n: nat)
    requires n < 0x100
    ensures Octet(Digits(n, 10)) == Some(n)
  {
    DigitsBack(n, 10);
  }

  lemma OctetsAddUp(a: Cidr.Address)
    ensures a / 0x100_0000 < 0x100
    ensures ((a / 0x100_0000 * 0x100 + a / 0x1_0000 % 0x100) * 0x100 + a / 0x100 % 0x100) * 0x100 + a % 0x100 == a
  {
  }

  lemma Show4Parts(a: Cidr.Address)
    ensures Split(Show4(a), '.') == Octets(a)
  {
    var parts := Octets(a);
    DigitsAbsent(a / 0x100_0000, 10, '.');
    DigitsAbsent(a / 0x1_0000 % 0x100, 10, '.');
    DigitsAbsent(a / 0x100 % 0x100, 10, '.');
    DigitsAbsent(a % 0x100, 10, '.');
    SplitJoin(parts, '.');
  }

  lemma Read4Back(n: Cidr.Address)
    ensures Read4(Show4(n)) == Some(n)
  {
    Show4Parts(n);
    OctetsAddUp(n);
    var a, b, c, d := n / 0x100_0000, n / 0x1_0000 % 0x100, n / 0x100 % 0x100, n % 0x100;
    OctetBack(a);
    OctetBack(b);
    OctetBack(c);
    OctetBack(d);
  }

  lemma Show4Lacks(a: Cidr.Address, c: char)
    requires !IsDigit(c, 10) && c != '.'
    ensures c !in Show4(a)
  {
    DigitsAbsent(a / 0x100_0000, 10, c);
    DigitsAbsent(a / 0x1_0000 % 0x100, 10, c);
    DigitsAbsent(a / 0x100 % 0x100, 10, c);
    DigitsAbsent(a % 0x100, 10, c);
    JoinAbsent(Octets(a), '.', c);
  }

  lemma HexBack(word: Word)
    ensures Digits(word, 16) != "" && WordsOf(Digits(word, 16)) == Some([word])
    ensures forall c :: c in Digits(word, 16) ==> IsDigit(c, 16)
  {
    DigitsBack(word, 16);
    DigitsAbsent(word, 16, '.');
    assert forall i :: 0 <= i < |Digits(word, 16)| ==> IsDigit(Digits(word, 16)[i], 16);
  }

  /** Written words: never empty, hexadecimal digits only, and read back. */
  lemma {:induction false} HexesBack(words: seq<Word>)
    ensures |Hexes(words)| == |words| && AllWords(Hexes(words)) == Some(words)
    ensures forall i :: 0 <= i < |words| ==> Hexes(words)[i] != ""
    ensures forall i, c :: 0 <= i < |words| && c in Hexes(words)[i] ==> IsDigit(c, 16)
  {
    if words != [] {
      HexesBack(words[1..]);
      HexBack(words[0]);
      AllWordsCons(Digits(words[0], 16), Hexes(words[1..]), [words[0]], words[1..]);
      assert words == [words[0]] + words[1..];
    }
  }

  ghost predicate NonEmpty(parts: seq<string>) { forall i :: 0 <= i < |parts| ==> parts[i] != "" }

  lemma TrimAround(left: seq<string>, right: seq<string>)
    requires NonEmpty(left) && NonEmpty(right)
    ensures Trim(Around(left, right)) == left + [""] + right
  {
  }

  lemma TrimFull(parts: seq<string>)
    requires NonEmpty(parts)
    ensures Trim(parts) == parts && GapAt(parts) == |parts|
  {
    GapAfter(parts, []);
    assert parts + [] == parts;
  }

  lemma {:induction false} GapAfter(left: seq<string>, right: seq<string>)
    requires NonEmpty(left) && (right == [] || right[0] == "")
    ensures GapAt(left + right) == |left|
  {
    if left == [] {
      assert left + right == right;
    } else {
      assert (left + right)[1..] == left[1..] + right;
      GapAfter(left[1..], right);
    }
  }

  ghost predicate Lack(parts: seq<string>, c: char) { forall i :: 0 <= i < |parts| ==> c !in parts[i] }

  lemma GapReads(left: seq<string>, right: seq<string>)
    requires NonEmpty(left)
    ensures ReadParts(left + [""] + right) == Filled(AllWords(left), AllWords(right))
  {
    var parts := left + [""] + right;
    assert parts == left + ([""] + right);
    GapAfter(left, [""] + right);
    assert parts[..|left|] == left && parts[|left| + 1..] == right;
  }

  /** `left::right` reads as the left words, zeros, and the right words. */
  lemma GapBack(left: seq<string>, right: seq<string>)
    requires NonEmpty(left) && NonEmpty(right) && Lack(left, ':') && Lack(right, ':')
    ensures Read6(Join(Around(left, right), ':')) == Filled(AllWords(left), AllWords(right))
  {
    SplitJoin(Around(left, right), ':');
    TrimAround(left, right);
    GapReads(left, right);
  }

  lemma FilledBack(words: Words8, run: Run)
    requires run.Zeros(words) && run.len > 0
    ensures Filled(Some(words[..run.start]), Some(words[run.start + run.len..])) == Some(words)
  {
    assert words == words[..run.start] + Zeros(run.len) + words[run.start + run.len..];
  }

  lemma MappedBack(words: Words8)
    requires IsMapped(words)
    ensures Read6(Show(V6(words))) == Some(words)
  {
    var a := Combine(words[6], words[7]);
    Show4Lacks(a, ':');
    MappedWords(a, words[6], words[7]);
    GapBack([], ["ffff", Show4(a)]);
    assert words[..0] == [] && words[5..] == [0xffff, words[6], words[7]];
    FilledBack(words, Run(0, 5));
  }

  lemma AllWordsCons(part: string, rest: seq<string>, a: seq<Word>, b: seq<Word>)
    requires WordsOf(part) == Some(a) && AllWords(rest) == Some(b)
    ensures AllWords([part] + rest) == Some(a + b)
  {
    assert ([part] + rest)[1..] == rest;
  }

  lemma ThreeWords(a: Word, b: Word, c: Word)
    ensures [a] + [b, c] == [a, b, c]
  {
  }

  lemma DottedWords(part: string, high: Word, low: Word)
    requires '.' in part && Read4(part) == Some(Combine(high, low))
    ensures WordsOf(part) == Some([high, low])
  {
  }

  lemma MappedWords(a: Cidr.Address, high: Word, low: Word)
    requires a == Combine(high, low)
    ensures AllWords(["ffff", Show4(a)]) == Some([0xffff, high, low])
  {
    Read4Back(a);
    var dotted := Show4(a);
    DottedWords(dotted, high, low);
    AllWordsCons(dotted, [], [high, low], []);
    assert [dotted] + [] == [dotted] && [high, low] + [] == [high, low];
    FfffReads();
    AllWordsCons("ffff", [dotted], [0xffff], [high, low]);
    assert ["ffff"] + [dotted] == ["ffff", dotted];
    ThreeWords(0xffff, high, low);
  }

  lemma FfffReads()
    ensures WordsOf("ffff") == Some([0xffff])
  {
    assert ParseDigits("", 16) == Some(0);
    assert Init("f") == "" && ParseDigits("f", 16) == Some(15);
    assert Init("ff") == "f" && ParseDigits("ff", 16) == Some(255);
    assert Init("fff") == "ff" && ParseDigits("fff", 16) == Some(4095);
    assert Init("ffff") == "fff" && ParseDigits("ffff", 16) == Some(65535);
  }

  lemma Read6Back(words: Words8)
    ensures Read6(Show(V6(words))) == Some(words)
  {
    if IsMapped(words) {
      MappedBack(words);
    } else {
      var zeros := LongestZeros(words, 0, Run(0, 0), Run(0, 0));
      if zeros.len > 1 {
        var left, right := words[..zeros.start], words[zeros.start + zeros.len..];
        HexesBack(left);
        HexesBack(right);
        HexesLack(left, ':');
        HexesLack(right, ':');
        GapBack(Hexes(left), Hexes(right));
        FilledBack(words, zeros);
      } else {
        HexesBack(words);
        HexesLack(words, ':');
        SplitJoin(Hexes(words), ':');
        TrimFull(Hexes(words));
      }
    }
  }

  /** Characters that stand in no address. */
  predicate Foreign(c: char) { !IsDigit(c, 16) && c != '.' && c != ':' }

  lemma HexesLack(words: seq<Word>, c: char)
    requires !IsDigit(c, 16)
    ensures |Hexes(words)| == |words| && Lack(Hexes(words), c)
  {
    HexesBack(words);
  }

  lemma MappedLacks(a: Cidr.Address, c: char)
    requires Foreign(c)
    ensures Lack(Around([], ["ffff", Show4(a)]), c)
  {
    Show4Lacks(a, c);
    var right := ["ffff", Show4(a)];
    assert Worth('f') == 15;
    assert c !in right[0] && c !in right[1];
  }

  lemma GapLacks(words: Words8, run: Run, c: char)
    requires Foreign(c) && run.Zeros(words)
    ensures Lack(Around(Hexes(words[..run.start]), Hexes(words[run.start + run.len..])), c)
  {
    HexesLack(words[..run.start], c);
    HexesLack(words[run.start + run.len..], c);
  }

  lemma Parts6Lack(words: Words8, c: char)
    requires Foreign(c)
    ensures Lack(Parts6(words), c)
  {
    if IsMapped(words) {
      MappedLacks(Combine(words[6], words[7]), c);
    } else {
      GapLacks(words, LongestZeros(words, 0, Run(0, 0), Run(0, 0)), c);
      HexesLack(words, c);
    }
  }

  lemma ShowLacks(ip: IpAddr, c: char)
    requires Foreign(c)
    ensures c !in Show(ip)
  {
    match ip
    case V4(a) => Show4Lacks(a, c);
    case V6(words) =>
      Parts6Lack(words, c);
      JoinAbsent(Parts6(words), ':', c);
  }

  lemma ColonTells(ip: IpAddr)
    ensures ':' in Show(ip) <==> ip.V6?
  {
    match ip
    case V4(a) => Show4Lacks(a, ':');
    case V6(words) =>
      if !IsMapped(words) { HexesBack(words); }
      assert |Parts6(words)| >= 2;
  }

  /** Every address reads back from its text, so different addresses have different
      texts. */
  lemma ReadBack(ip: IpAddr)
    ensures Read(Show(ip)) == Some(ip)
  {
    ColonTells(ip);
    match ip
    case V4(a) => Read4Back(a);
    case V6(words) => Read6Back(words);
  }

  // ----- how addresses look

  /** Every run that ends by `i` is no longer than `longest`, and shorter if it starts
      earlier; every run that ends at `i` lies in `current`. */
  ghost predicate Scanned(words: seq<Word>, i: nat, current: Run, longest: Run) {
    && i <= |words| && current.Zeros(words) && longest.Zeros(words)
    && (current.len > 0 ==> current.start + current.len == i) && current.len <= longest.len
    && longest.start + longest.len <= i
    && (forall run: Run :: run.Zeros(words) && run.len > 0 && run.start + run.len <= i ==>
          run.len <= longest.len && (run.start < longest.start ==> run.len < longest.len))
    && (forall run: Run :: run.Zeros(words) && run.len > 0 && run.start + run.len == i ==>
          current.len > 0 && current.start <= run.start)
  }

  lemma {:induction false} LongestIsLongest(words: seq<Word>, i: nat, current: Run, longest: Run, run: Run)
    requires Scanned(words, i, current, longest) && run.Zeros(words) && run.len > 0
    ensures var r := LongestZeros(words, i, current, longest);
            run.len <= r.len && (run.start < r.start ==> run.len < r.len)
    decreases |words| - i
  {
    if i < |words| {
      if words[i] != 0 {
        ScanBreaks(words, i, current, longest);
        LongestIsLongest(words, i + 1, Run(0, 0), longest, run);
      } else {
        var extended := if current.len == 0 then Run(i, 1) else Run(current.start, current.len + 1);
        ScanExtends(words, i, current, longest, extended);
        LongestIsLongest(words, i + 1, extended, if extended.len > longest.len then extended else longest, run);
      }
    }
  }

  lemma ScanBreaks(words: seq<Word>, i: nat, current: Run, longest: Run)
    requires Scanned(words, i, current, longest) && i < |words| && words[i] != 0
    ensures Scanned(words, i + 1, Run(0, 0), longest)
  {
    forall run: Run | run.Zeros(words) && run.len > 0 && run.start + run.len <= i + 1 ensures run.start + run.len <= i {
      assert words[run.start + run.len - 1] == 0;
    }
  }

  lemma ScanExtends(words: seq<Word>, i: nat, current: Run, longest: Run, extended: Run)
    requires Scanned(words, i, current, longest) && i < |words| && words[i] == 0
    requires extended == if current.len == 0 then Run(i, 1) else Run(current.start, current.len + 1)
    ensures Scanned(words, i + 1, extended, if extended.len > longest.len then extended else longest)
  {
    forall run: Run | run.Zeros(words) && run.len > 0 && run.start + run.len == i + 1
      ensures extended.start <= run.start
    {
      if run.len > 1 { assert Run(run.start, run.len - 1).Zeros(words); }
    }
  }

  /** The text of an IPv6 address: the first of the longest runs of two or more zero words
      is left out between two colons; without one, all eight words are written; an
      address that maps an IPv4 address ends in its dotted form. */
  lemma Show6Text(words: Words8)
    ensures if IsMapped(words) then Show(V6(words)) == "::ffff:" + Show4(Combine(words[6], words[7]))
            else
              var zeros := LongestZeros(words, 0, Run(0, 0), Run(0, 0));
              && (forall run: Run :: run.Zeros(words) && run.len > 0 ==>
                    run.len <= zeros.len && (run.start < zeros.start ==> run.len < zeros.len))
              && Show(V6(words)) ==
                 if zeros.len > 1
                 then Join(Hexes(words[..zeros.start]), ':') + "::" + Join(Hexes(words[zeros.start + zeros.len..]), ':')
                 else Join(Hexes(words), ':')
  {
    if IsMapped(words) {
      MappedText(Show4(Combine(words[6], words[7])));
    } else {
      var zeros := LongestZeros(words, 0, Run(0, 0), Run(0, 0));
      forall run: Run | run.Zeros(words) && run.len > 0
        ensures run.len <= zeros.len && (run.start < zeros.start ==> run.len < zeros.len)
      {
        LongestIsLongest(words, 0, Run(0, 0), Run(0, 0), run);
      }
      AroundText(Hexes(words[..zeros.start]), Hexes(words[zeros.start + zeros.len..]));
    }
  }

  lemma MappedText(dotted: string)
    ensures Join(Around([], ["ffff", dotted]), ':') == "::ffff:" + dotted
  {
    AroundText([], ["ffff", dotted]);
    assert ["ffff", dotted][1..] == [dotted];
    assert "" + "::" + ("ffff" + [':'] + dotted) == "::ffff:" + dotted;
  }

  /** The text of an IPv4 address, from its four octets. */
  lemma Show4Text(a: nat, b: nat, c: nat, d: nat, n: Cidr.Address)
    requires a < 0x100 && b < 0x100 && c < 0x100 && d < 0x100 && n == ((a * 0x100 + b) * 0x100 + c) * 0x100 + d
    ensures Show4(n) == Digits(a, 10) + "." + Digits(b, 10) + "." + Digits(c, 10) + "." + Digits(d, 10)
  {
    OctetsBack(a, b, c, d, n);
    assert Octets(n) == [Digits(a, 10), Digits(b, 10), Digits(c, 10), Digits(d, 10)];
    FourJoined(Digits(a, 10), Digits(b, 10), Digits(c, 10), Digits(d, 10));
  }

  lemma OctetsBack(a: nat, b: nat, c: nat, d: nat, n: nat)
    requires a < 0x100 && b < 0x100 && c < 0x100 && d < 0x100 && n == ((a * 0x100 + b) * 0x100 + c) * 0x100 + d
    ensures n / 0x100_0000 == a && n / 0x1_0000 % 0x100 == b && n / 0x100 % 0x100 == c && n % 0x100 == d
    ensures n < 0x1_0000_0000
  {
    assert n / 0x100 == (a * 0x100 + b) * 0x100 + c;
    assert n / 0x1_0000 == a * 0x100 + b;
  }

  lemma FourJoined(a: string, b: string, c: string, d: string)
    ensures Join([a, b, c, d], '.') == a + "." + b + "." + c + "." + d
  {
    assert [a, b, c, d][1..] == [b, c, d] && [b, c, d][1..] == [c, d] && [c, d][1..] == [d];
    assert Join([c, d], '.') == c + "." + d;
    assert Join([b, c, d], '.') == b + "." + (c + "." + d);
  }
}
