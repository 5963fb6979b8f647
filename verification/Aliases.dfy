/** Names of converted images in LXD, and which of them clean-up takes for stale
    (crates/openshell-driver-lxd/src/image.rs and gc.rs). */
module Aliases {
  import opened Common
  import opened Text
  import opened Numerals

  const CONVERSION_REVISION: nat := 3
  const U32: nat := 0x1_0000_0000

  // ----- writing

  /** `<prefix>r<revision>-<digest>` */
  function AliasAt(prefix: string, revision: nat, digest: string): string {
    prefix + "r" + Digits(revision, 10) + "-" + digest
  }

  /** The digest without its `sha256:`. */
  function Clean(digest: string): string {
    if StartsWith(digest, "sha256:") then digest[7..] else digest
  }

  /** `cache_alias_with_prefix` */
  function CacheAlias(prefix: string, digest: string): string {
    AliasAt(prefix, CONVERSION_REVISION, Clean(digest))
  }

  // ----- judging

  predicate IsHexDigit(c: char) { '0' <= c <= '9' || 'a' <= c <= 'f' || 'A' <= c <= 'F' }

  predicate IsDigest(s: string) { |s| == 64 && forall i :: 0 <= i < |s| ==> IsHexDigit(s[i]) }

  /** `str::parse::<u32>`: digits, after an optional plus sign, of a number that fits. */
  function ParseU32(s: string): Option<nat> {
    var digits := if s != "" && s[0] == '+' then s[1..] else s;
    if digits == "" then None
    else match ParseDigits(digits, 10)
      case None => None
      case Some(n) => if n < U32 then Some(n) else None
  }

  /** `is_older_revision_alias` */
  predicate IsOlderRevision(alias: string, prefix: string) {
    StartsWith(alias, prefix)
    && var rest := alias[|prefix|..];
       var named := if rest != "" && rest[0] == 'r' then Cut("-", rest[1..]) else None;
       match if named.Some? then ParseU32(named.value.0) else None
       case Some(revision) => revision < CONVERSION_REVISION && IsDigest(named.value.1)
       case None => IsDigest(rest)
  }

  // ----- what the judgement means

  /** An alias of the driver at a revision below the current one, in any spelling of
      the revision. */
  ghost predicate NamesOlder(alias: string, prefix: string, text: string, digest: string) {
    && ParseU32(text).Some? && ParseU32(text).value < CONVERSION_REVISION
    && IsDigest(digest) && alias == prefix + "r" + text + "-" + digest
  }

  lemma {:induction false} DigitsHaveNoDash(s: string)
    requires ParseDigits(s, 10).Some?
    ensures forall i :: 0 <= i < |s| ==> IsDigit(s[i], 10)
  {
    if s != "" {
      DigitsHaveNoDash(Init(s));
      assert forall i :: 0 <= i < |s| - 1 ==> Init(s)[i] == s[i];
    }
  }

  lemma NumbersHaveNo(s: string, c: char)
    requires ParseU32(s).Some? && !IsDigit(c, 10) && c != '+'
    ensures c !in s
  {
    var digits := if s[0] == '+' then s[1..] else s;
    DigitsHaveNoDash(digits);
    forall i | 0 <= i < |s| ensures s[i] != c {
      assert s[0] == '+' && i > 0 ==> s[i] == digits[i - 1];
    }
  }

  /** What follows the prefix, when it spells a revision. */
  lemma RevisionRead(text: string, digest: string)
    requires ParseU32(text).Some?
    ensures Cut("-", text + "-" + digest) == Some((text, digest))
  {
    NumbersHaveNo(text, '-');
    AbsentByte("-", text);
    FoundWherePut(text, "-", digest);
  }

  /** With a revision spelled out, only the revision and the digest decide. */
  lemma SpelledRevision(prefix: string, text: string, digest: string)
    requires ParseU32(text).Some?
    ensures IsOlderRevision(prefix + "r" + text + "-" + digest, prefix)
            <==> ParseU32(text).value < CONVERSION_REVISION && IsDigest(digest)
  {
    var tail := text + "-" + digest;
    var rest := "r" + tail;
    assert prefix + "r" + text + "-" + digest == prefix + rest;
    assert rest[1..] == tail;
    RevisionRead(text, digest);
  }

  lemma RevisionLess(prefix: string, digest: string)
    requires IsDigest(digest)
    ensures IsOlderRevision(prefix + digest, prefix)
  {
    assert IsHexDigit(digest[0]);
  }

  /** Exactly the aliases of older revisions, and the revision-less ones of the
      first releases, are stale. */
  lemma StaleIffOlder(alias: string, prefix: string)
    ensures IsOlderRevision(alias, prefix)
            <==> || (exists digest :: IsDigest(digest) && alias == prefix + digest)
                 || (exists text, digest :: NamesOlder(alias, prefix, text, digest))
  {
    if digest :| IsDigest(digest) && alias == prefix + digest {
      RevisionLess(prefix, digest);
    }
    if text, digest :| NamesOlder(alias, prefix, text, digest) {
      SpelledRevision(prefix, text, digest);
    }
    if IsOlderRevision(alias, prefix) {
      OlderIsNamed(alias, prefix);
    }
  }

  lemma OlderIsNamed(alias: string, prefix: string)
    requires IsOlderRevision(alias, prefix)
    ensures || (exists digest :: IsDigest(digest) && alias == prefix + digest)
            || (exists text, digest :: NamesOlder(alias, prefix, text, digest))
  {
    var rest := alias[|prefix|..];
    assert alias == prefix + rest;
    if !IsDigest(rest) {
      var named := Cut("-", rest[1..]);
      var (text, digest) := named.value;
      assert rest == "r" + (text + "-" + digest);
      assert NamesOlder(alias, prefix, text, digest);
    }
  }

  lemma {:induction false} WrittenParses(n: nat)
    requires n < U32
    ensures ParseU32(Digits(n, 10)) == Some(n)
  {
    DigitsBack(n, 10);
    assert IsDigit(Digits(n, 10)[0], 10);
  }

  /** Of the aliases a driver writes at any revision, those below the current one
      that name a full digest are stale, and no others: never the current
      revision's, whatever the digest, nor a newer driver's. */
  lemma RevisionDecides(prefix: string, revision: nat, digest: string)
    requires revision < U32
    ensures IsOlderRevision(AliasAt(prefix, revision, digest), prefix)
            <==> revision < CONVERSION_REVISION && IsDigest(digest)
  {
    WrittenParses(revision);
    SpelledRevision(prefix, Digits(revision, 10), digest);
  }

  lemma CurrentNeverStale(prefix: string, digest: string)
    ensures !IsOlderRevision(CacheAlias(prefix, digest), prefix)
  {
    RevisionDecides(prefix, CONVERSION_REVISION, Clean(digest));
  }

  /** Distinct digests never collide. */
  lemma AliasInjective(prefix: string, a: string, b: string)
    ensures CacheAlias(prefix, a) == CacheAlias(prefix, b) <==> Clean(a) == Clean(b)
  {
    var head := prefix + "r" + Digits(CONVERSION_REVISION, 10) + "-";
    assert CacheAlias(prefix, a) == head + Clean(a) && CacheAlias(prefix, b) == head + Clean(b);
    assert (head + Clean(a))[|head|..] == Clean(a) && (head + Clean(b))[|head|..] == Clean(b);
  }

  // ----- two drivers with different prefixes in one project

  /** Equal texts that end in equally long parts agree part by part. */
  lemma SplitEqual(a: string, b: string, x: string, y: string)
    requires a + x == b + y && |x| == |y|
    ensures a == b && x == y
  {
    assert |a| == |b|;
    assert a == (a + x)[..|a|] && b == (b + y)[..|b|];
    assert x == (a + x)[|a|..] && y == (b + y)[|b|..];
  }

  /** Before the last `-` the text back to the last `r` is the revision. */
  lemma RevisionUnique(p: string, text: string, q: string, other: string)
    requires p + "r" + text + "-" == q + "r" + other + "-"
    requires 'r' !in text && 'r' !in other
    ensures text == other
  {
    SplitEqual(p + "r" + text, q + "r" + other, "-", "-");
    AfterLastStops(p, 'r', text);
    AfterLastStops(q, 'r', other);
  }

  /** A driver takes another driver's current alias of a full digest for stale
      exactly when its own prefix is the other's alias up to the digest. */
  lemma OtherDriversAlias(prefix: string, other: string, digest: string)
    requires IsDigest(Clean(digest))
    ensures IsOlderRevision(CacheAlias(other, digest), prefix)
            <==> prefix == other + "r" + Digits(CONVERSION_REVISION, 10) + "-"
  {
    var d := Clean(digest);
    var three := Digits(CONVERSION_REVISION, 10);
    var head := other + "r" + three + "-";
    var alias := CacheAlias(other, digest);
    assert alias == head + d;
    WrittenParses(CONVERSION_REVISION);
    NumbersHaveNo(three, 'r');
    if prefix == head {
      RevisionLess(prefix, d);
    }
    if IsOlderRevision(alias, prefix) {
      StaleIffOlder(alias, prefix);
      forall text, e ensures !NamesOlder(alias, prefix, text, e) {
        if ParseU32(text).Some? && IsDigest(e) && alias == prefix + "r" + text + "-" + e {
          NumbersHaveNo(text, 'r');
          SplitEqual(head, prefix + "r" + text + "-", d, e);
          RevisionUnique(prefix, text, other, three);
        }
      }
      var e :| IsDigest(e) && alias == prefix + e;
      SplitEqual(head, prefix, d, e);
    }
  }

  /** What an alias looks like, with the digest given with or without its algorithm. */
  lemma CacheAliasText(prefix: string, digest: string)
    ensures CacheAlias(prefix, "sha256:" + digest) == prefix + "r3-" + digest
    ensures !StartsWith(digest, "sha256:") ==> CacheAlias(prefix, digest) == prefix + "r3-" + digest
  {
    var named := "sha256:" + digest;
    assert named[..7] == "sha256:" && named[7..] == digest;
    assert Digits(3, 10) == "3";
    ThreePieces(prefix, digest);
  }

  lemma ThreePieces(prefix: string, digest: string)
    ensures prefix + "r" + "3" + "-" + digest == prefix + "r3-" + digest
  {
  }

  lemma SignedParses(digits: string)
    requires ParseU32(digits).Some? && digits != "" && digits[0] != '+'
    ensures ParseU32("+" + digits) == ParseU32(digits) && ParseU32("-" + digits) == None
  {
    assert ("+" + digits)[1..] == digits;
    var negative := "-" + digits;
    assert negative[0] == '-' && negative[0] in negative;
    if ParseU32(negative).Some? { NumbersHaveNo(negative, '-'); }
  }

  /** Numbers as aliases spell them: with or without a plus sign, and nothing else. */
  lemma NumbersParse(n: nat)
    requires n < 0x1_0000_0000
    ensures ParseU32(Digits(n, 10)) == Some(n) && ParseU32("+" + Digits(n, 10)) == Some(n)
    ensures ParseU32("") == None && ParseU32("+") == None && ParseU32("-" + Digits(n, 10)) == None
  {
    WrittenParses(n);
    assert IsDigit(Digits(n, 10)[0], 10);
    SignedParses(Digits(n, 10));
  }

  /** A full digest: 64 hexadecimal digits of either case. */
  lemma DigestsAre(s: string)
    ensures IsDigest(s) <==> |s| == 64 && forall i :: 0 <= i < |s| ==> s[i] in "0123456789abcdefABCDEF"
  {
    forall c: char ensures IsHexDigit(c) <==> c in "0123456789abcdefABCDEF" { HexDigits(c); }
  }

  lemma HexDigits(c: char)
    ensures IsHexDigit(c) <==> c in "0123456789abcdefABCDEF"
  {
    var all := "0123456789abcdefABCDEF";
    if '0' <= c <= '9' { assert all[c as int - 48] == c; }
    if 'a' <= c <= 'f' { assert all[c as int - 87] == c; }
    if 'A' <= c <= 'F' { assert all[c as int - 49] == c; }
  }
}
