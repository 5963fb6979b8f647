/** The mksquashfs pseudo file that restores every file's owner
    (crates/openshell-driver-lxd/src/image.rs, `write_ownership_pseudo_file` and
    `pseudo_quote`). A character stands for a byte of a path. */
module Ownership {
  import opened Common
  import opened Text
  import opened Numerals
  import opened OwnerRecord

  /** A directory entry; `File` is anything but a directory. `children` are in the
      order `read_dir` lists them, `xattr` is the raw owner record, if there is one. */
  datatype Entry =
    | File(name: string, mode: nat, xattr: Option<seq<Byte>>)
    | Dir(name: string, mode: nat, xattr: Option<seq<Byte>>, children: seq<Entry>)

  /** One line of the pseudo file. */
  datatype Record = Record(path: string, mode: nat, uid: nat, gid: nat)

  const NEWLINE := "\n"

  /** Size of the buffer an owner record is read into; a longer one is an error. */
  const XATTR_BUFFER: nat := 64

  function Prefix(dir: string): string { if dir == "" then "" else dir + "/" }

  function PathOf(dir: string, e: Entry): string { Prefix(dir) + e.name }

  // ----- quoting

  function Escape(path: string): string {
    if path == "" then ""
    else (if path[0] == '"' || path[0] == '\\' then ['\\', path[0]] else [path[0]]) + Escape(path[1..])
  }

  function Quoted(path: string): string { "\"" + Escape(path) + "\"" }

  /** `pseudo_quote` */
  method PseudoQuote(path: string) returns (quoted: string)
    ensures quoted == Quoted(path)
  {
    quoted := "\"";
    for i := 0 to |path|
      invariant quoted + Escape(path[i..]) == "\"" + Escape(path)
    {
      assert path[i..][1..] == path[i + 1..];
      if path[i] == '"' || path[i] == '\\' {
        quoted := quoted + "\\";
      }
      quoted := quoted + [path[i]];
    }
    assert path[|path|..] == "";
    quoted := quoted + "\"";
  }

  /** The text up to the closing quote, and what follows it. */
  function Unquote(s: string): Option<(string, string)> {
    if s == "" then None
    else if s[0] == '"' then Some(("", s[1..]))
    else if s[0] == '\\' then
      if |s| == 1 then None
      else match Unquote(s[2..])
        case None => None
        case Some((path, rest)) => Some(([s[1]] + path, rest))
    else match Unquote(s[1..])
      case None => None
      case Some((path, rest)) => Some(([s[0]] + path, rest))
  }

  lemma {:induction false} UnquoteBack(path: string, rest: string)
    ensures Unquote(Escape(path) + "\"" + rest) == Some((path, rest))
  {
    var s := Escape(path) + "\"" + rest;
    if path == "" {
      assert s == "\"" + rest;
    } else {
      UnquoteBack(path[1..], rest);
      var tail := Escape(path[1..]) + "\"" + rest;
      assert path == [path[0]] + path[1..];
      if path[0] == '"' || path[0] == '\\' {
        assert s == ['\\', path[0]] + tail;
      } else {
        assert s == [path[0]] + tail;
      }
    }
  }

  lemma {:induction false} EscapeAbsent(path: string, c: char)
    requires c !in path && c != '\\'
    ensures c !in Escape(path)
  {
    if path != "" {
      assert path[0] in path;
      EscapeAbsent(path[1..], c);
    }
  }

  // ----- lines

  function Line(r: Record): string {
    Quoted(r.path) + " m " + Digits(r.mode, 8) + " " + Digits(r.uid, 10) + " " + Digits(r.gid, 10)
  }

  function Lines(records: seq<Record>): string {
    if records == [] then "" else Lines(Init(records)) + Line(Last(records)) + NEWLINE
  }

  function ParseLine(line: string): Option<Record> {
    if !StartsWith(line, "\"") then None
    else match Unquote(line[1..])
      case None => None
      case Some((path, rest)) =>
        if !StartsWith(rest, " m ") then None
        else match Cut(" ", rest[3..])
          case None => None
          case Some((mode, ids)) => match Cut(" ", ids)
            case None => None
            case Some((uid, gid)) =>
              match (ParseDigits(mode, 8), ParseDigits(uid, 10), ParseDigits(gid, 10))
              case (Some(m), Some(u), Some(g)) => Some(Record(path, m, u, g))
              case _ => None
  }

  function ParseFile(text: string): Option<seq<Record>>
    decreases |text|
  {
    if text == "" then Some([])
    else match Cut(NEWLINE, text)
      case None => None
      case Some((line, rest)) =>
        match (ParseLine(line), ParseFile(rest))
        case (Some(r), Some(rs)) => Some([r] + rs)
        case _ => None
  }

  lemma LineBack(r: Record)
    ensures ParseLine(Line(r)) == Some(r)
  {
    var mode, uid, gid := Digits(r.mode, 8), Digits(r.uid, 10), Digits(r.gid, 10);
    var ids := uid + " " + gid;
    var rest := " m " + (mode + " " + ids);
    assert Line(r) == "\"" + (Escape(r.path) + "\"" + rest);
    assert Line(r)[1..] == Escape(r.path) + "\"" + rest;
    UnquoteBack(r.path, rest);
    assert rest[3..] == mode + " " + ids && StartsWith(rest, " m ");
    SpaceCut(r.mode, 8, ids);
    SpaceCut(r.uid, 10, gid);
    DigitsBack(r.mode, 8);
    DigitsBack(r.uid, 10);
    DigitsBack(r.gid, 10);
  }

  lemma SpaceCut(n: nat, base: nat, rest: string)
    requires 2 <= base <= 10
    ensures Cut(" ", Digits(n, base) + " " + rest) == Some((Digits(n, base), rest))
  {
    DigitsAbsent(n, base, ' ');
    AbsentByte(" ", Digits(n, base));
    FoundWherePut(Digits(n, base), " ", rest);
  }

  lemma LineHasNoNewline(r: Record)
    requires '\n' !in r.path
    ensures '\n' !in Line(r)
  {
    EscapeAbsent(r.path, '\n');
    DigitsAbsent(r.mode, 8, '\n');
    DigitsAbsent(r.uid, 10, '\n');
    DigitsAbsent(r.gid, 10, '\n');
  }

  ghost predicate Printable(records: seq<Record>) {
    forall i :: 0 <= i < |records| ==> '\n' !in records[i].path
  }

  lemma LineThenRest(r: Record, rest: string)
    requires '\n' !in r.path
    ensures ParseFile(Line(r) + NEWLINE + rest) ==
            if ParseFile(rest).None? then None else Some([r] + ParseFile(rest).value)
  {
    LineHasNoNewline(r);
    AbsentByte(NEWLINE, Line(r));
    FoundWherePut(Line(r), NEWLINE, rest);
    LineBack(r);
  }

  /** Reading the written lines back gives the records, in order. */
  lemma {:induction false} LinesBack(records: seq<Record>, rest: string)
    requires Printable(records)
    ensures ParseFile(Lines(records) + rest) ==
            if ParseFile(rest).None? then None else Some(records + ParseFile(rest).value)
    decreases |records|
  {
    if records == [] {
      assert Lines(records) + rest == rest;
      if ParseFile(rest).Some? { assert records + ParseFile(rest).value == ParseFile(rest).value; }
    } else {
      var more := Line(Last(records)) + NEWLINE + rest;
      SnocLine(records, rest);
      LinesBack(Init(records), more);
      LineThenRest(Last(records), rest);
      if ParseFile(rest).Some? {
        SnocRecords(records, ParseFile(rest).value);
      }
    }
  }

  lemma SnocRecords(records: seq<Record>, more: seq<Record>)
    requires records != []
    ensures Init(records) + ([Last(records)] + more) == records + more
  {
  }

  lemma SnocLine(records: seq<Record>, rest: string)
    requires records != []
    ensures Lines(records) + rest == Lines(Init(records)) + (Line(Last(records)) + NEWLINE + rest)
  {
  }

  // ----- the walk

  /** The owner of an entry: the recorded one, root without a record, nothing when
      the record cannot be read. */
  ghost function OwnerOf(e: Entry): Option<Owner> {
    if e.xattr.None? then Some(Owner(0, 0))
    else if |e.xattr.value| > XATTR_BUFFER then None
    else if exists o :: Decodes(Owner(0, 0), e.xattr.value, o) then
      var o :| Decodes(Owner(0, 0), e.xattr.value, o);
      Some(o)
    else None
  }

  ghost predicate Named(dir: string, e: Entry) { '\n' !in PathOf(dir, e) }

  ghost function RecordOf(dir: string, e: Entry): Record {
    var owner := if OwnerOf(e).Some? then OwnerOf(e).value else Owner(0, 0);
    Record(PathOf(dir, e), e.mode % 4096, owner.uid, owner.gid)
  }

  ghost function Own(dir: string, e: Entry): multiset<Record> {
    if Named(dir, e) then multiset{RecordOf(dir, e)} else multiset{}
  }

  /** One record for every entry below `dir` whose path has no newline. */
  ghost function AllRecords(dir: string, entries: seq<Entry>): multiset<Record>
    decreases entries
  {
    if entries == [] then multiset{}
    else Own(dir, entries[0]) + Below(dir, entries[0]) + AllRecords(dir, entries[1..])
  }

  ghost function Below(dir: string, e: Entry): multiset<Record>
    decreases e
  {
    if e.Dir? then AllRecords(PathOf(dir, e), e.children) else multiset{}
  }

  /** Every entry with a nameable path has a readable owner. */
  ghost predicate Readable(dir: string, entries: seq<Entry>)
    decreases entries
  {
    entries == [] ||
    (&& (Named(dir, entries[0]) ==> OwnerOf(entries[0]).Some?)
     && (entries[0].Dir? ==> Readable(PathOf(dir, entries[0]), entries[0].children))
     && Readable(dir, entries[1..]))
  }

  function Size(entries: seq<Entry>): nat {
    if entries == [] then 0
    else 1 + (if entries[0].Dir? then 1 + Size(entries[0].children) else 0) + Size(entries[1..])
  }

  /** A directory still to be read. */
  datatype Pending = Pending(dir: string, entries: seq<Entry>)

  ghost function PendingRecords(pending: seq<Pending>): multiset<Record> {
    if pending == [] then multiset{}
    else PendingRecords(Init(pending)) + AllRecords(Last(pending).dir, Last(pending).entries)
  }

  ghost predicate PendingReadable(pending: seq<Pending>) {
    pending == [] || (PendingReadable(Init(pending)) && Readable(Last(pending).dir, Last(pending).entries))
  }

  ghost function PendingSize(pending: seq<Pending>): nat {
    if pending == [] then 0 else PendingSize(Init(pending)) + 1 + Size(Last(pending).entries)
  }

  lemma PendingSnoc(pending: seq<Pending>, p: Pending)
    ensures PendingRecords(pending + [p]) == PendingRecords(pending) + AllRecords(p.dir, p.entries)
    ensures PendingReadable(pending + [p]) <==> PendingReadable(pending) && Readable(p.dir, p.entries)
    ensures PendingSize(pending + [p]) == PendingSize(pending) + 1 + Size(p.entries)
  {
    assert Init(pending + [p]) == pending;
  }

  /** `read_rootless_owner`, root standing in for a missing record. */
  method ReadOwner(e: Entry) returns (r: Option<Owner>)
    ensures r == OwnerOf(e)
  {
    if e.xattr.None? {
      return Some(Owner(0, 0));
    }
    if |e.xattr.value| > XATTR_BUFFER {
      return None;
    }
    r := DecodeRootlessOwner(e.xattr.value);
    assert r.Some? ==> Decodes(Owner(0, 0), e.xattr.value, r.value);
  }

  /** What is written so far, as text and as records. */
  datatype Written = Written(text: string, count: nat)

  ghost predicate Holds(w: Written, records: seq<Record>) {
    w.text == Lines(records) && w.count == |records| && Printable(records)
  }

  /** The line of one entry, unless the format cannot name it. */
  method WriteEntry(dir: string, e: Entry, w: Written, ghost records: seq<Record>)
    returns (r: Option<Written>, ghost after: seq<Record>)
    requires Holds(w, records)
    ensures r.Some? <==> (Named(dir, e) ==> OwnerOf(e).Some?)
    ensures r.Some? ==> Holds(r.value, after) && multiset(after) == multiset(records) + Own(dir, e)
  {
    after := records;
    var path := PathOf(dir, e);
    if '\n' in path {
      return Some(w), records;
    }
    var owner := ReadOwner(e);
    if owner.None? {
      return None, records;
    }
    var mode := e.mode % 4096;
    var quoted := PseudoQuote(path);
    var record := Record(path, mode, owner.value.uid, owner.value.gid);
    var (uid, gid) := (owner.value.uid, owner.value.gid);
    var line := quoted + " m " + Digits(mode, 8) + " " + Digits(uid, 10) + " " + Digits(gid, 10);
    after := records + [record];
    assert Init(after) == records && Last(after) == record;
    r := Some(Written(w.text + line + NEWLINE, w.count + 1));
  }

  /** One turn of the walk: every entry of a directory is written, its
      subdirectories are queued. */
  method VisitDirectory(d: Pending, pending: seq<Pending>, w: Written, ghost records: seq<Record>)
    returns (r: Option<Written>, queued: seq<Pending>, ghost after: seq<Record>)
    requires Holds(w, records)
    ensures r.Some? ==> Holds(r.value, after)
    ensures r.Some? ==> multiset(after) + PendingRecords(queued)
                        == multiset(records) + PendingRecords(pending) + AllRecords(d.dir, d.entries)
    ensures r.Some? ==> (PendingReadable(queued) <==> PendingReadable(pending) && Readable(d.dir, d.entries))
    ensures r.Some? ==> PendingSize(queued) <= PendingSize(pending) + Size(d.entries)
    ensures r.None? ==> !Readable(d.dir, d.entries)
  {
    queued, after := pending, records;
    var done := w;
    for i := 0 to |d.entries|
      invariant Holds(done, after)
      invariant Progress(d, pending, multiset(records), d.entries[i..], queued, multiset(after))
    {
      var e := d.entries[i];
      ghost var before, written := queued, multiset(after);
      if e.Dir? {
        queued := queued + [Pending(PathOf(d.dir, e), e.children)];
      }
      var step;
      step, after := WriteEntry(d.dir, e, done, after);
      assert d.entries[i..][1..] == d.entries[i + 1..];
      if step.None? {
        return None, queued, after;
      }
      done := step.value;
      EntryProgress(d, pending, multiset(records), d.entries[i..], before, written);
    }
    assert d.entries[|d.entries|..] == [];
    return Some(done), queued, after;
  }

  /** Between the entries of `d`: what is written, queued and left adds up. */
  ghost predicate Progress(d: Pending, pending: seq<Pending>, records: multiset<Record>,
                           left: seq<Entry>, queued: seq<Pending>, written: multiset<Record>)
  {
    && written + PendingRecords(queued) + AllRecords(d.dir, left)
       == records + PendingRecords(pending) + AllRecords(d.dir, d.entries)
    && (PendingReadable(queued) && Readable(d.dir, left) <==> PendingReadable(pending) && Readable(d.dir, d.entries))
    && (Readable(d.dir, d.entries) ==> Readable(d.dir, left))
    && PendingSize(queued) + Size(left) <= PendingSize(pending) + Size(d.entries)
  }

  lemma EntryProgress(d: Pending, pending: seq<Pending>, records: multiset<Record>,
                      left: seq<Entry>, queued: seq<Pending>, written: multiset<Record>)
    requires left != [] && Progress(d, pending, records, left, queued, written)
    requires Named(d.dir, left[0]) ==> OwnerOf(left[0]).Some?
    ensures var e := left[0];
            Progress(d, pending, records, left[1..],
                     if e.Dir? then queued + [Pending(PathOf(d.dir, e), e.children)] else queued,
                     written + Own(d.dir, e))
  {
    var e := left[0];
    var after := if e.Dir? then queued + [Pending(PathOf(d.dir, e), e.children)] else queued;
    if e.Dir? {
      PendingSnoc(queued, Pending(PathOf(d.dir, e), e.children));
    }
    assert PendingRecords(after) == PendingRecords(queued) + Below(d.dir, e);
    MoveRecords(written, PendingRecords(queued), Own(d.dir, e), Below(d.dir, e), AllRecords(d.dir, left[1..]));
  }

  lemma MoveRecords(
      w: multiset<Record>, q: multiset<Record>, own: multiset<Record>, below: multiset<Record>,
      rest: multiset<Record>)
    ensures (w + own) + (q + below) + rest == w + q + (own + below + rest)
  {
  }

  /** `write_ownership_pseudo_file`: succeeds exactly when every nameable entry has a
      readable owner, and then every entry of the tree is visited once — the text
      is one line for each nameable entry, and the count is their number. */
  method WriteOwnership(root: seq<Entry>) returns (r: Option<Written>, ghost records: seq<Record>)
    ensures r.Some? <==> Readable("", root)
    ensures r.Some? ==> multiset(records) == AllRecords("", root)
    ensures r.Some? ==> ParseFile(r.value.text) == Some(records) && r.value.count == |records|
  {
    var pending := [Pending("", root)];
    var w := Written("", 0);
    records := [];
    PendingSnoc([], Pending("", root));
    assert [] + [Pending("", root)] == pending;
    while pending != []
      invariant Holds(w, records)
      invariant multiset(records) + PendingRecords(pending) == AllRecords("", root)
      invariant PendingReadable(pending) <==> Readable("", root)
      decreases PendingSize(pending)
    {
      var d := Last(pending);
      var step, queued;
      step, queued, records := VisitDirectory(d, Init(pending), w, records);
      if step.None? {
        return None, records;
      }
      w, pending := step.value, queued;
    }
    LinesBack(records, "");
    assert Lines(records) + "" == Lines(records) && records + [] == records;
    r := Some(w);
  }

  // ----- paths are distinct

  /** Sibling names differ and contain no slash. */
  ghost predicate WellNamed(entries: seq<Entry>)
    decreases entries
  {
    && (forall i :: 0 <= i < |entries| ==> entries[i].name != "" && '/' !in entries[i].name)
    && (forall i, j :: 0 <= i < j < |entries| ==> entries[i].name != entries[j].name)
    && (forall i :: 0 <= i < |entries| && entries[i].Dir? ==> WellNamed(entries[i].children))
  }

  /** The path of `r` lies at or below an entry called `name` of `dir`. */
  ghost predicate At(r: Record, dir: string, name: string) {
    StartsWith(r.path, Prefix(dir)) && Before(r.path[|Prefix(dir)|..], '/') == name
  }

  lemma {:induction false} RecordsAt(dir: string, entries: seq<Entry>, r: Record)
    requires WellNamed(entries) && r in AllRecords(dir, entries)
    ensures exists i :: 0 <= i < |entries| && At(r, dir, entries[i].name)
    decreases entries
  {
    var e := entries[0];
    if r in Own(dir, e) {
      OwnAt(dir, e, r);
      assert At(r, dir, entries[0].name);
    } else if r in Below(dir, e) {
      BelowAt(dir, e, r);
      assert At(r, dir, entries[0].name);
    } else {
      WellNamedTail(entries);
      RecordsAt(dir, entries[1..], r);
      var i :| 0 <= i < |entries[1..]| && At(r, dir, entries[1..][i].name);
      assert At(r, dir, entries[i + 1].name);
    }
  }

  lemma WellNamedTail(entries: seq<Entry>)
    requires WellNamed(entries) && entries != []
    ensures WellNamed(entries[1..])
  {
    assert forall i :: 0 <= i < |entries| - 1 ==> entries[1..][i] == entries[i + 1];
  }

  lemma OwnAt(dir: string, e: Entry, r: Record)
    requires r in Own(dir, e) && '/' !in e.name
    ensures At(r, dir, e.name) && r.path == PathOf(dir, e)
  {
    BeforeStops(e.name, '/', "");
    assert r.path[|Prefix(dir)|..] == e.name;
  }

  lemma BelowAt(dir: string, e: Entry, r: Record)
    requires r in Below(dir, e) && e.name != "" && '/' !in e.name && (e.Dir? ==> WellNamed(e.children))
    ensures At(r, dir, e.name) && r.path != PathOf(dir, e)
    decreases e, 0
  {
    var sub := PathOf(dir, e);
    RecordsAt(sub, e.children, r);
    assert sub != "" && StartsWith(r.path, sub + "/");
    PathBelow(Prefix(dir), e.name, r.path);
  }

  lemma PathBelow(prefix: string, name: string, path: string)
    requires StartsWith(path, prefix + name + "/") && '/' !in name
    ensures StartsWith(path, prefix) && Before(path[|prefix|..], '/') == name && path != prefix + name
  {
    var rest := path[|prefix + name| + 1..];
    assert path == prefix + (name + ['/'] + rest);
    assert path[|prefix|..] == name + ['/'] + rest;
    BeforeStops(name, '/', rest);
  }

  /** No two entries of a tree share a path: the records are a map from paths. */
  lemma {:induction false} PathsAreDistinct(dir: string, entries: seq<Entry>, a: Record, b: Record)
    requires WellNamed(entries) && a in AllRecords(dir, entries) && b in AllRecords(dir, entries) && a.path == b.path
    ensures a == b && AllRecords(dir, entries)[a] == 1
    decreases entries
  {
    var e, rest := entries[0], entries[1..];
    WellNamedTail(entries);
    forall r | r in AllRecords(dir, rest) && r.path == a.path ensures !At(a, dir, e.name) {
      RecordsAt(dir, rest, r);
      var i :| 0 <= i < |rest| && At(r, dir, rest[i].name);
      assert rest[i] == entries[i + 1];
    }
    forall r | r in Own(dir, e) && r.path == a.path
      ensures At(a, dir, e.name) && a.path == PathOf(dir, e)
    {
      OwnAt(dir, e, r);
    }
    forall r | r in Below(dir, e) && r.path == a.path
      ensures At(a, dir, e.name) && a.path != PathOf(dir, e)
    {
      BelowAt(dir, e, r);
    }
    if a in Below(dir, e) && b in Below(dir, e) {
      PathsAreDistinct(PathOf(dir, e), e.children, a, b);
    }
    if a in AllRecords(dir, rest) && b in AllRecords(dir, rest) {
      PathsAreDistinct(dir, rest, a, b);
    }
  }

  // ----- what a record says

  /** The record of an entry: its path from the root, its permission bits, and the owner
      its attribute records, in that order; root without one. */
  lemma RecordSays(dir: string, e: Entry, uid: nat, gid: nat)
    requires || (e.xattr == None && uid == 0 && gid == 0)
             || (e.xattr.Some? && |e.xattr.value| <= 64 && Decodes(Owner(0, 0), e.xattr.value, Owner(uid, gid)))
    ensures RecordOf(dir, e) == Record(if dir == "" then e.name else dir + "/" + e.name, e.mode % 0x1000, uid, gid)
  {
    if e.xattr.Some? {
      forall o | Decodes(Owner(0, 0), e.xattr.value, o) ensures o == Owner(uid, gid) {
        DecodesUnique(Owner(0, 0), e.xattr.value, o, Owner(uid, gid));
      }
    }
  }

  /** A record that is too long, or malformed, is no owner. */
  lemma UnreadableOwner(e: Entry)
    requires e.xattr.Some?
    ensures OwnerOf(e).None? <==>
            |e.xattr.value| > 64 || forall o :: !Decodes(Owner(0, 0), e.xattr.value, o)
  {
  }

  /** Every entry of a directory is recorded if its path can be named, and everything
      below it if it is a directory. */
  lemma {:induction false} EntryIsRecorded(dir: string, entries: seq<Entry>, e: Entry)
    requires e in entries
    ensures '\n' !in (if dir == "" then e.name else dir + "/" + e.name) ==> RecordOf(dir, e) in AllRecords(dir, entries)
    ensures e.Dir? ==>
              AllRecords(if dir == "" then e.name else dir + "/" + e.name, e.children) <= AllRecords(dir, entries)
  {
    assert PathOf(dir, e) == if dir == "" then e.name else dir + "/" + e.name;
    if e != entries[0] {
      assert e in entries[1..];
      EntryIsRecorded(dir, entries[1..], e);
    } else if e.Dir? {
      assert Below(dir, e) == AllRecords(PathOf(dir, e), e.children);
    }
  }

  /** A line, written out. */
  lemma LineText(path: string, mode: nat, uid: nat, gid: nat)
    ensures Line(Record(path, mode, uid, gid)) ==
            "\"" + Escape(path) + "\"" + " m " + Digits(mode, 8) + " " + Digits(uid, 10) + " " + Digits(gid, 10)
    ensures Lines([Record(path, mode, uid, gid)]) == Line(Record(path, mode, uid, gid)) + "\n"
  {
    var r := Record(path, mode, uid, gid);
    assert Init([r]) == [] && Lines([]) == "";
  }

  /** Quotes and backslashes are escaped by a backslash, everything else stands for
      itself. */
  lemma EscapeText(path: string)
    requires path != ""
    ensures Escape(path) == (if path[0] == '"' then "\\\"" else if path[0] == '\\' then "\\\\" else [path[0]])
                            + Escape(path[1..])
    ensures Escape("") == ""
  {
  }
}
