/** Searching and cutting text. */
module Text {
  import opened Common

  predicate StartsWith(s: string, prefix: string) { |prefix| <= |s| && s[..|prefix|] == prefix }

  /** Position of the first occurrence of `pattern`. */
  function FirstIndex(pattern: string, s: string): (i: Option<nat>)
    ensures i.Some? ==> i.value + |pattern| <= |s|
  {
    if StartsWith(s, pattern) then Some(0)
    else if s == [] then None
    else match FirstIndex(pattern, s[1..])
      case None => None
      case Some(i) => Some(i + 1)
  }

  /** The text before the first `pattern` and the text after it. */
  function Cut(pattern: string, s: string): (r: Option<(string, string)>)
    ensures r.Some? ==> s == r.value.0 + pattern + r.value.1
  {
    match FirstIndex(pattern, s)
    case None => None
    case Some(i) =>
      CutAt(pattern, s);
      Some((s[..i], s[i + |pattern|..]))
  }

  lemma {:induction false} CutAt(pattern: string, s: string)
    ensures var i := FirstIndex(pattern, s);
            i.Some? ==> s == s[..i.value] + pattern + s[i.value + |pattern|..]
  {
    if !StartsWith(s, pattern) && s != [] {
      CutAt(pattern, s[1..]);
      var i := FirstIndex(pattern, s[1..]);
      if i.Some? {
        assert s[..i.value + 1] == [s[0]] + s[1..][..i.value];
        assert s[i.value + 1 + |pattern|..] == s[1..][i.value + |pattern|..];
        assert s == [s[0]] + s[1..];
      }
    }
  }

  ghost predicate OccursAt(pattern: string, s: string, i: int) {
    0 <= i <= |s| && StartsWith(s[i..], pattern)
  }

  ghost predicate Occurs(pattern: string, s: string) {
    exists i :: OccursAt(pattern, s, i)
  }

  /** A pattern whose first byte does not come again in it cannot overlap itself,
      so it is found right where it was put. */
  lemma {:induction false} FoundWherePut(x: string, pattern: string, y: string)
    requires pattern != [] && pattern[0] !in pattern[1..] && !Occurs(pattern, x)
    ensures Cut(pattern, x + pattern + y) == Some((x, y))
  {
    FirstIndexPut(x, pattern, y);
    var s := x + pattern + y;
    assert s[..|x|] == x && s[|x| + |pattern|..] == y;
  }

  lemma {:induction false} FirstIndexPut(x: string, pattern: string, y: string)
    requires pattern != [] && pattern[0] !in pattern[1..] && !Occurs(pattern, x)
    ensures FirstIndex(pattern, x + pattern + y) == Some(|x|)
  {
    var s := x + pattern + y;
    if x == [] {
      assert s[..|pattern|] == pattern;
    } else {
      assert s[1..] == x[1..] + pattern + y;
      assert !Occurs(pattern, x[1..]) by {
        forall i ensures !OccursAt(pattern, x[1..], i) {
          assert 0 <= i < |x| ==> x[1..][i..] == x[i + 1..];
          assert !OccursAt(pattern, x, i + 1);
        }
      }
      FirstIndexPut(x[1..], pattern, y);
      assert !StartsWith(s, pattern) by {
        assert x[0..] == x && !OccursAt(pattern, x, 0);
        if |x| >= |pattern| {
          assert s[..|pattern|] == x[..|pattern|];
        } else {
          assert s[|x|] == pattern[0] && pattern[|x|] == pattern[1..][|x| - 1];
          assert s[..|pattern|][|x|] != pattern[|x|];
        }
      }
    }
  }

  lemma AbsentByte(pattern: string, s: string)
    requires pattern != [] && pattern[0] !in s
    ensures !Occurs(pattern, s)
  {
    forall i ensures !OccursAt(pattern, s, i) {
      assert 0 <= i < |s| ==> s[i..][0] == s[i] && s[i] in s;
    }
  }

  lemma {:induction false} FirstIndexBy(pattern: string, s: string, i: nat)
    requires i <= |s| && StartsWith(s[i..], pattern)
    ensures FirstIndex(pattern, s).Some? && FirstIndex(pattern, s).value <= i
  {
    if i == 0 {
      assert s[0..] == s;
    } else if !StartsWith(s, pattern) {
      assert s[1..][i - 1..] == s[i..];
      FirstIndexBy(pattern, s[1..], i - 1);
    }
  }

  /** The content is cut where it ends exactly when the delimiter does not occur in it. */
  lemma CutOf(content: string, d: string, more: string)
    requires d != [] && d[0] !in d[1..]
    ensures Cut(d, content + d + more).Some?
    ensures if Occurs(d, content) then Cut(d, content + d + more).value.0 != content
            else Cut(d, content + d + more) == Some((content, more))
  {
    if i :| OccursAt(d, content, i) {
      var s := content + d + more;
      assert content[i..] + (d + more) == s[i..];
      assert s[i..][..|d|] == content[i..][..|d|];
      FirstIndexBy(d, s, i);
    } else {
      FoundWherePut(content, d, more);
    }
  }

  function Before(s: string, c: char): string {
    if s == "" || s[0] == c then "" else [s[0]] + Before(s[1..], c)
  }

  function AfterLast(s: string, c: char): string {
    if s == "" || s[|s| - 1] == c then "" else AfterLast(s[..|s| - 1], c) + [s[|s| - 1]]
  }

  lemma {:induction false} BeforeStops(s: string, c: char, rest: string)
    requires c !in s
    ensures Before(s + [c] + rest, c) == s && Before(s, c) == s
  {
    if s == "" {
      assert s + [c] + rest == [c] + rest;
    } else {
      assert s == [s[0]] + s[1..];
      BeforeStops(s[1..], c, rest);
      assert (s + [c] + rest)[1..] == s[1..] + [c] + rest;
    }
  }

  lemma {:induction false} AfterLastStops(dir: string, c: char, s: string)
    requires c !in s
    ensures AfterLast(dir + [c] + s, c) == s
  {
    var all := dir + [c] + s;
    if s != "" {
      assert all[..|all| - 1] == dir + [c] + s[..|s| - 1];
      AfterLastStops(dir, c, s[..|s| - 1]);
      assert s == s[..|s| - 1] + [s[|s| - 1]];
    }
  }

  // ----- lists in text

  function Join(parts: seq<string>, sep: char): string {
    if parts == [] then "" else if |parts| == 1 then parts[0] else parts[0] + [sep] + Join(parts[1..], sep)
  }

  function Split(s: string, sep: char): (parts: seq<string>)
    ensures parts != []
  {
    if s == "" then [""]
    else if s[0] == sep then [""] + Split(s[1..], sep)
    else var rest := Split(s[1..], sep); [[s[0]] + rest[0]] + rest[1..]
  }

  lemma {:induction false} SplitFirst(part: string, sep: char, more: string)
    requires sep !in part
    ensures Split(part, sep) == [part] && Split(part + [sep] + more, sep) == [part] + Split(more, sep)
  {
    if part == "" {
      assert (part + [sep] + more)[1..] == more;
    } else {
      SplitFirst(part[1..], sep, more);
      assert (part + [sep] + more)[1..] == part[1..] + [sep] + more;
      assert part == [part[0]] + part[1..];
      assert [part] == [[part[0]] + part[1..]];
    }
  }

  lemma {:induction false} SplitJoin(parts: seq<string>, sep: char)
    requires parts != [] && forall i :: 0 <= i < |parts| ==> sep !in parts[i]
    ensures Split(Join(parts, sep), sep) == parts
  {
    if |parts| == 1 {
      SplitFirst(parts[0], sep, "");
    } else {
      SplitFirst(parts[0], sep, Join(parts[1..], sep));
      SplitJoin(parts[1..], sep);
    }
  }

  lemma {:induction false} JoinAbsent(parts: seq<string>, sep: char, c: char)
    requires c != sep && forall i :: 0 <= i < |parts| ==> c !in parts[i]
    ensures c !in Join(parts, sep)
  {
    if |parts| > 1 {
      JoinAbsent(parts[1..], sep, c);
    }
  }

  lemma {:induction false} JoinConcat(a: seq<string>, b: seq<string>, sep: char)
    requires a != [] && b != []
    ensures Join(a + b, sep) == Join(a, sep) + [sep] + Join(b, sep)
  {
    assert (a + b)[1..] == a[1..] + b;
    if |a| > 1 {
      JoinConcat(a[1..], b, sep);
    } else {
      assert a[1..] + b == b;
    }
  }

  lemma CutHas(c: char, s: string)
    ensures Cut([c], s).Some? ==> c in s
  {
    if Cut([c], s).Some? {
      var (a, b) := Cut([c], s).value;
      assert s[|a|] == c;
    }
  }
}
