/** The multipart/form-data body of a split image upload, and a reader for it
    (crates/lxd-client/src/split_image_body.rs). A character stands for a byte. */
module Multipart {
  import opened Common
  import opened Text

  type Bytes = string

  const CRLF := "\r\n"
  const DISPOSITION := "Content-Disposition: form-data; name=\""
  const FILENAME := "; filename=\""
  const CONTENT_TYPE := "Content-Type: application/octet-stream"

  // ----- what SplitImageBody::new writes

  function DashBoundary(boundary: string): Bytes { "--" + boundary }

  function Disposition(field: string, filename: string): Bytes {
    DISPOSITION + field + "\"" + FILENAME + filename + "\""
  }

  function PartHeaders(field: string, filename: string): Bytes {
    Disposition(field, filename) + CRLF + CONTENT_TYPE + CRLF + CRLF
  }

  function Preamble(boundary: string, metadataName: string, metadata: Bytes, rootfsName: string): Bytes {
    DashBoundary(boundary) + CRLF + PartHeaders("metadata", metadataName) + metadata + CRLF
    + DashBoundary(boundary) + CRLF + PartHeaders("rootfs", rootfsName)
  }

  function Closing(boundary: string): Bytes {
    CRLF + DashBoundary(boundary) + "--" + CRLF
  }

  // ----- a reader following section 5.1.1 of RFC 2046

  datatype Part = Part(name: string, filename: string, content: Bytes)

  /** Header lines up to the empty line, and what follows it. */
  function Headers(s: Bytes): Option<(seq<string>, Bytes)>
    decreases |s|
  {
    match Cut(CRLF, s)
    case None => None
    case Some((line, rest)) =>
      if line == "" then Some(([], rest))
      else match Headers(rest)
        case None => None
        case Some((lines, content)) => Some(([line] + lines, content))
  }

  /** The field and file names of a form-data disposition line. */
  function Names(line: string): Option<(string, string)> {
    if !StartsWith(line, DISPOSITION) then None
    else match Cut("\"", line[|DISPOSITION|..])
      case None => None
      case Some((name, rest)) =>
        if !StartsWith(rest, FILENAME) then None
        else match Cut("\"", rest[|FILENAME|..])
          case None => None
          case Some((filename, end)) => if end == "" then Some((name, filename)) else None
  }

  function FindNames(lines: seq<string>): Option<(string, string)> {
    if lines == [] then None
    else if Names(lines[0]).Some? then Names(lines[0])
    else FindNames(lines[1..])
  }

  function SkipPadding(s: Bytes): (r: Bytes)
    ensures |r| <= |s|
  {
    if s != [] && (s[0] == ' ' || s[0] == '\t') then SkipPadding(s[1..]) else s
  }

  function Delimiter(boundary: string): Bytes { CRLF + DashBoundary(boundary) }

  /** The content of a part and what follows the delimiter after it. Every delimiter
      starts a line. A strict reader takes a content that starts with the dash-boundary
      for a delimiter line, ending the part without content; a lenient one looks for
      the delimiter, with its line break, from the first byte of the content on. */
  function CutContent(rest: Bytes, boundary: string, strict: bool): (r: Option<(Bytes, Bytes)>)
    ensures r.Some? ==> |r.value.1| <= |rest|
  {
    var dash := DashBoundary(boundary);
    if strict && StartsWith(rest, dash) then Some(("", rest[|dash|..])) else Cut(Delimiter(boundary), rest)
  }

  /** The content holds nothing the reader takes for a delimiter. */
  ghost predicate Plain(content: Bytes, boundary: string, strict: bool) {
    !Occurs(Delimiter(boundary), content) && !(strict && StartsWith(content, DashBoundary(boundary)))
  }

  /** The delimiter after a content does not make it start with the dash-boundary. */
  lemma StartsOnlyItself(content: Bytes, dash: Bytes, more: Bytes)
    requires '\r' !in dash
    ensures StartsWith(content + ['\r'] + more, dash) <==> StartsWith(content, dash)
  {
    var rest := content + ['\r'] + more;
    if |dash| <= |content| {
      assert rest[..|dash|] == content[..|dash|];
    } else {
      assert dash[|content|] in dash;
      assert |dash| <= |rest| ==> rest[..|dash|][|content|] == '\r';
    }
  }

  lemma LineBreakFirst(content: Bytes, dash: Bytes, more: Bytes)
    ensures content + (CRLF + dash) + more == content + ['\r'] + ("\n" + dash + more)
  {
  }

  lemma CutContentOf(content: Bytes, boundary: string, more: Bytes, strict: bool)
    requires '\r' !in boundary
    ensures var cut := CutContent(content + Delimiter(boundary) + more, boundary, strict);
            && cut.Some?
            && if Plain(content, boundary, strict) then cut == Some((content, more)) else cut.value.0 != content
  {
    var dash := DashBoundary(boundary);
    CutOf(content, Delimiter(boundary), more);
    StartsOnlyItself(content, dash, "\n" + dash + more);
    LineBreakFirst(content, dash, more);
  }

  /** The parts from just after a dash-boundary on. */
  function Parts(s: Bytes, boundary: string, strict: bool): Option<seq<Part>>
    decreases |s|
  {
    if StartsWith(s, "--") then Some([])
    else
      var line := SkipPadding(s);
      if !StartsWith(line, CRLF) then None
      else match Headers(line[|CRLF|..])
        case None => None
        case Some((lines, rest)) =>
          HeadersShrink(line[|CRLF|..]);
          match CutContent(rest, boundary, strict)
          case None => None
          case Some((content, more)) =>
            match (FindNames(lines), Parts(more, boundary, strict))
            case (Some((name, filename)), Some(parts)) => Some([Part(name, filename, content)] + parts)
            case _ => None
  }

  lemma {:induction false} HeadersShrink(s: Bytes)
    ensures Headers(s).Some? ==> |Headers(s).value.1| <= |s|
    decreases |s|
  {
    var cut := Cut(CRLF, s);
    if cut.Some? && cut.value.0 != "" {
      HeadersShrink(cut.value.1);
    }
  }

  function Parse(s: Bytes, boundary: string, strict: bool): Option<seq<Part>> {
    var dash := DashBoundary(boundary);
    if StartsWith(s, dash) then Parts(s[|dash|..], boundary, strict) else None
  }

  // ----- the round trip

  lemma HeaderLine(line: string, rest: Bytes)
    requires line != "" && '\r' !in line
    ensures Headers(line + CRLF + rest) ==
            if Headers(rest).None? then None else Some(([line] + Headers(rest).value.0, Headers(rest).value.1))
  {
    AbsentByte(CRLF, line);
    FoundWherePut(line, CRLF, rest);
  }

  lemma NamesBack(field: string, filename: string)
    requires '"' !in field && '"' !in filename
    ensures Names(Disposition(field, filename)) == Some((field, filename))
  {
    var line := Disposition(field, filename);
    var tail := FILENAME + filename + "\"";
    assert line == DISPOSITION + (field + "\"" + tail);
    assert line[|DISPOSITION|..] == field + "\"" + tail;
    AbsentByte("\"", field);
    FoundWherePut(field, "\"", tail);
    assert tail[|FILENAME|..] == filename + "\"" + "";
    AbsentByte("\"", filename);
    FoundWherePut(filename, "\"", "");
  }

  lemma DispositionPlain(field: string, filename: string)
    requires '\r' !in field && '\r' !in filename
    ensures '\r' !in Disposition(field, filename) && Disposition(field, filename) != ""
  {
  }

  lemma PartAfterHeaders(
      line: string, second: string, field: string, filename: string, content: Bytes, boundary: string,
      more: Bytes, parts: seq<Part>, strict: bool)
    requires line != "" && '\r' !in line && second != "" && '\r' !in second && Names(line) == Some((field, filename))
    requires '\r' !in boundary
    ensures Parts(CRLF + (line + CRLF + second + CRLF + CRLF) + content + Delimiter(boundary) + more, boundary, strict)
            == Some([Part(field, filename, content)] + parts)
            <==> Plain(content, boundary, strict) && Parts(more, boundary, strict) == Some(parts)
  {
    var d := Delimiter(boundary);
    var rest := content + d + more;
    Regroup(CRLF, line, CRLF, second, CRLF, CRLF, content, d, more);
    TwoHeaders(line, second, rest);
    CutContentOf(content, boundary, more, strict);
    var cut := CutContent(rest, boundary, strict).value;
    PartsStep(line + CRLF + (second + CRLF + (CRLF + rest)), [line, second], rest,
              field, filename, cut.0, boundary, cut.1, strict);
    if Parts(cut.1, boundary, strict).Some? {
      var others := Parts(cut.1, boundary, strict).value;
      ConsEqual(Part(field, filename, cut.0), Part(field, filename, content), others, parts);
    }
  }

  lemma ConsEqual(p: Part, q: Part, ps: seq<Part>, qs: seq<Part>)
    ensures [p] + ps == [q] + qs <==> p == q && ps == qs
  {
    if [p] + ps == [q] + qs {
      assert ([p] + ps)[0] == p && ([q] + qs)[0] == q;
      assert ps == ([p] + ps)[1..] == ([q] + qs)[1..] == qs;
    }
  }

  lemma Regroup(a: Bytes, b: Bytes, c: Bytes, d: Bytes, e: Bytes, f: Bytes, g: Bytes, h: Bytes, i: Bytes)
    ensures a + (b + c + d + e + f) + g + h + i == a + (b + c + (d + e + (f + (g + h + i))))
  {
  }

  lemma TwoHeaders(first: string, second: string, rest: Bytes)
    requires first != "" && '\r' !in first && second != "" && '\r' !in second
    ensures Headers(first + CRLF + (second + CRLF + (CRLF + rest))) == Some(([first, second], rest))
  {
    HeaderLine(second, CRLF + rest);
    HeaderLine(first, second + CRLF + (CRLF + rest));
    assert [first] + ([second] + []) == [first, second];
  }

  lemma PartsStep(headers: Bytes, lines: seq<string>, rest: Bytes, field: string, filename: string,
                  content: Bytes, boundary: string, more: Bytes, strict: bool)
    requires Headers(headers) == Some((lines, rest)) && CutContent(rest, boundary, strict) == Some((content, more))
    requires lines != [] && Names(lines[0]) == Some((field, filename))
    ensures Parts(CRLF + headers, boundary, strict) ==
            if Parts(more, boundary, strict).None? then None
            else Some([Part(field, filename, content)] + Parts(more, boundary, strict).value)
  {
    var s := CRLF + headers;
    assert s[0] == '\r' && s[|CRLF|..] == headers;
    assert SkipPadding(s) == s;
  }

  /** Reading the body back gives exactly the two named parts, precisely when neither
      content holds what the reader, strict or lenient, takes for a delimiter. */
  lemma RoundTrip(
      boundary: string, metadataName: string, metadata: Bytes, rootfsName: string, rootfs: Bytes, strict: bool)
    requires '\r' !in boundary
    requires '"' !in metadataName && '\r' !in metadataName && '"' !in rootfsName && '\r' !in rootfsName
    ensures Parse(Preamble(boundary, metadataName, metadata, rootfsName) + rootfs + Closing(boundary), boundary, strict)
            == Some([Part("metadata", metadataName, metadata), Part("rootfs", rootfsName, rootfs)])
            <==> Plain(metadata, boundary, strict) && Plain(rootfs, boundary, strict)
  {
    FieldsRoundTrip(boundary, "metadata", metadataName, metadata, "rootfs", rootfsName, rootfs, strict);
  }

  lemma FieldsRoundTrip(
      boundary: string, n1: string, f1: string, c1: Bytes, n2: string, f2: string, c2: Bytes, strict: bool)
    requires '\r' !in boundary
    requires '"' !in n1 && '\r' !in n1 && '"' !in n2 && '\r' !in n2
    requires '"' !in f1 && '\r' !in f1 && '"' !in f2 && '\r' !in f2
    ensures Parse((DashBoundary(boundary) + CRLF + PartHeaders(n1, f1) + c1 + CRLF + DashBoundary(boundary) + CRLF
                   + PartHeaders(n2, f2)) + c2 + Closing(boundary), boundary, strict)
            == Some([Part(n1, f1, c1), Part(n2, f2, c2)])
            <==> Plain(c1, boundary, strict) && Plain(c2, boundary, strict)
  {
    BothParts(boundary, n1, f1, c1, n2, f2, c2, strict);
    Assemble(DashBoundary(boundary), CRLF, PartHeaders(n1, f1), c1, PartHeaders(n2, f2), c2, "--", boundary, strict);
  }

  lemma BothParts(boundary: string, n1: string, f1: string, c1: Bytes, n2: string, f2: string, c2: Bytes, strict: bool)
    requires '\r' !in boundary
    requires '"' !in n1 && '\r' !in n1 && '"' !in n2 && '\r' !in n2
    requires '"' !in f1 && '\r' !in f1 && '"' !in f2 && '\r' !in f2
    ensures Parts(CRLF + PartHeaders(n1, f1) + c1 + Delimiter(boundary)
                  + (CRLF + PartHeaders(n2, f2) + c2 + Delimiter(boundary) + ("--" + CRLF)), boundary, strict)
            == Some([Part(n1, f1, c1), Part(n2, f2, c2)])
            <==> Plain(c1, boundary, strict) && Plain(c2, boundary, strict)
  {
    var p1, p2 := Part(n1, f1, c1), Part(n2, f2, c2);
    assert [p2] + [] == [p2] && [p1] + [p2] == [p1, p2];
    OnePart(n2, f2, c2, boundary, "--" + CRLF, [], strict);
    OnePart(n1, f1, c1, boundary, CRLF + PartHeaders(n2, f2) + c2 + Delimiter(boundary) + ("--" + CRLF), [p2], strict);
  }

  lemma OnePart(
      field: string, filename: string, content: Bytes, boundary: string, more: Bytes, parts: seq<Part>, strict: bool)
    requires '"' !in field && '"' !in filename && '\r' !in field && '\r' !in filename && '\r' !in boundary
    ensures Parts(CRLF + PartHeaders(field, filename) + content + Delimiter(boundary) + more, boundary, strict)
            == Some([Part(field, filename, content)] + parts)
            <==> Plain(content, boundary, strict) && Parts(more, boundary, strict) == Some(parts)
  {
    DispositionPlain(field, filename);
    NamesBack(field, filename);
    PartAfterHeaders(Disposition(field, filename), CONTENT_TYPE, field, filename, content, boundary,
                     more, parts, strict);
  }

  lemma Assemble(d: Bytes, c: Bytes, h1: Bytes, m: Bytes, h2: Bytes, r: Bytes, e: Bytes, boundary: string, strict: bool)
    requires d == DashBoundary(boundary)
    ensures Parse((d + c + h1 + m + c + d + c + h2) + r + (c + d + e + c), boundary, strict)
            == Parts(c + h1 + m + (c + d) + (c + h2 + r + (c + d) + (e + c)), boundary, strict)
  {
    BodyRegroups(d, c, h1, m, h2, r, e);
  }

  lemma BodyRegroups(d: Bytes, c: Bytes, h1: Bytes, m: Bytes, h2: Bytes, r: Bytes, e: Bytes)
    ensures (d + c + h1 + m + c + d + c + h2) + r + (c + d + e + c)
            == d + (c + h1 + m + (c + d) + (c + h2 + r + (c + d) + (e + c)))
  {
  }

  /** The body, written out. */
  lemma BodyText(boundary: string, metadataName: string, metadata: Bytes, rootfsName: string)
    ensures Preamble(boundary, metadataName, metadata, rootfsName) ==
            "--" + boundary + "\r\n"
            + ("Content-Disposition: form-data; name=\"" + "metadata" + "\"" + "; filename=\"" + metadataName + "\""
               + "\r\n" + "Content-Type: application/octet-stream" + "\r\n" + "\r\n")
            + metadata + "\r\n" + ("--" + boundary) + "\r\n"
            + ("Content-Disposition: form-data; name=\"" + "rootfs" + "\"" + "; filename=\"" + rootfsName + "\""
               + "\r\n" + "Content-Type: application/octet-stream" + "\r\n" + "\r\n")
    ensures Closing(boundary) == "\r\n" + ("--" + boundary) + "--" + "\r\n"
  {
  }
}
