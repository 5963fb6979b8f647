/** The owner record umoci leaves on every file: a protobuf message of two varint
    fields (crates/openshell-driver-lxd/src/image.rs, `decode_rootless_owner`). */
module OwnerRecord {
  import opened Common

  type Byte = b: int | 0 <= b < 256

  const WORD: nat := 0x1_0000_0000
  const ROOTLESS_NOOP_ID: nat := 0xFFFF_FFFF
  const MAX_SHIFT: nat := 35

  datatype Owner = Owner(uid: nat, gid: nat)

  function Pow128(n: nat): (p: nat)
    ensures p >= 1
  {
    if n == 0 then 1 else 128 * Pow128(n - 1)
  }

  // ----- the grammar: fields of wire type 0 with varints of up to six bytes

  /** A varint of section "Base 128 Varints" of the Protocol Buffers encoding:
      every byte but the last has its top bit set. */
  ghost predicate IsVarint(v: seq<Byte>) {
    1 <= |v| <= 6 && v[|v| - 1] < 128 && forall i :: 0 <= i < |v| - 1 ==> v[i] >= 128
  }

  function VarintValue(v: seq<Byte>): nat {
    if v == [] then 0 else v[0] % 128 + 128 * VarintValue(v[1..])
  }

  /** `tag` is the field number (5 bits), `varint` its encoded value. */
  datatype Field = Field(tag: nat, varint: seq<Byte>)

  ghost predicate IsField(f: Field) { f.tag < 32 && IsVarint(f.varint) && VarintValue(f.varint) < WORD }

  function Key(f: Field): Byte { if f.tag < 32 then 8 * f.tag else 0 }

  function Serialize(fields: seq<Field>): seq<Byte> {
    if fields == [] then [] else [Key(fields[0])] + fields[0].varint + Serialize(fields[1..])
  }

  /** The id a value stands for: umoci's "unchanged" means root. */
  function IdOf(value: nat): nat { if value == ROOTLESS_NOOP_ID then 0 else value }

  function Put(o: Owner, f: Field): Owner {
    if f.tag == 1 then o.(uid := IdOf(VarintValue(f.varint)))
    else if f.tag == 2 then o.(gid := IdOf(VarintValue(f.varint)))
    else o
  }

  /** What a list of fields says, the last one of each kind winning. */
  function Meaning(o: Owner, fields: seq<Field>): Owner
    decreases |fields|
  {
    if fields == [] then o else Meaning(Put(o, fields[0]), fields[1..])
  }

  // ----- the decoder

  /** Reads one varint: its value and length, or nothing when it is cut off or
      longer than six bytes. The source's `|` and `<<` only ever add bits above
      those of `value`, which stays below 2^42. */
  method ReadVarint(tail: seq<Byte>) returns (r: Option<(nat, nat)>)
    ensures r.Some? <==> exists n :: 0 < n <= |tail| && IsVarint(tail[..n])
    ensures r.Some? ==> 0 < r.value.1 <= |tail| && IsVarint(tail[..r.value.1])
    ensures r.Some? ==> r.value.0 == VarintValue(tail[..r.value.1])
    ensures r.Some? ==> r.value.0 < Pow128(6)
  {
    var value: nat, scale: nat := 0, 1;
    var shift, consumed := 0, 0;
    while consumed < |tail|
      invariant 0 <= consumed <= |tail| && consumed <= 5 && shift == 7 * consumed && scale == Pow128(consumed)
      invariant forall i :: 0 <= i < consumed ==> tail[i] >= 128
      invariant value == VarintValue(tail[..consumed]) && value < scale
    {
      var byte: int := tail[consumed];
      VarintSnoc(tail[..consumed], byte);
      assert tail[..consumed + 1] == tail[..consumed] + [byte];
      consumed := consumed + 1;
      value := value + byte % 128 * scale;
      if byte < 128 {
        assert IsVarint(tail[..consumed]);
        VarintBound(tail[..consumed]);
        return Some((value, consumed));
      }
      shift := shift + 7;
      if shift > MAX_SHIFT {
        return None;
      }
      scale := scale * 128;
      VarintBound(tail[..consumed]);
    }
    return None;
  }

  lemma {:induction false} VarintSnoc(v: seq<Byte>, b: Byte)
    ensures VarintValue(v + [b]) == VarintValue(v) + b % 128 * Pow128(|v|)
  {
    if v == [] {
      assert v + [b] == [b];
      assert [b][1..] == [];
    } else {
      assert (v + [b])[1..] == v[1..] + [b];
      VarintSnoc(v[1..], b);
      var r, p := b % 128, Pow128(|v| - 1);
      assert 128 * (r * p) == r * (128 * p);
    }
  }

  lemma {:induction false} VarintBound(v: seq<Byte>)
    ensures VarintValue(v) < Pow128(|v|)
    ensures |v| <= 6 ==> Pow128(|v|) <= Pow128(6)
  {
    if v != [] {
      VarintBound(v[1..]);
    }
    if |v| <= 6 { Pow128Monotone(|v|, 6); }
  }

  lemma {:induction false} Pow128Monotone(a: nat, b: nat)
    requires a <= b
    ensures Pow128(a) <= Pow128(b)
  {
    if a < b { Pow128Monotone(a, b - 1); }
  }

  /** `bytes` is a well-formed record that turns `o` into `result`. */
  ghost predicate Decodes(o: Owner, bytes: seq<Byte>, result: Owner) {
    exists fields: seq<Field> :: ValidFields(fields) && Serialize(fields) == bytes && Meaning(o, fields) == result
  }

  ghost predicate ValidFields(fields: seq<Field>) { forall i :: 0 <= i < |fields| ==> IsField(fields[i]) }

  lemma VarintUnique(tail: seq<Byte>, n: nat, m: nat)
    requires 0 < n <= |tail| && 0 < m <= |tail| && IsVarint(tail[..n]) && IsVarint(tail[..m])
    ensures n == m
  {
    assert tail[..n][n - 1] == tail[n - 1] && tail[..m][m - 1] == tail[m - 1];
  }

  /** A well-formed record starts with a whole field. */
  lemma FirstField(o: Owner, bytes: seq<Byte>, result: Owner) returns (f: Field)
    requires bytes != [] && Decodes(o, bytes, result)
    ensures IsField(f) && bytes[0] == Key(f) && |f.varint| <= |bytes| - 1 && bytes[1..][..|f.varint|] == f.varint
    ensures Decodes(Put(o, f), bytes[1..][|f.varint|..], result)
  {
    var fields :| ValidFields(fields) && Serialize(fields) == bytes && Meaning(o, fields) == result;
    f := fields[0];
    assert bytes == [Key(f)] + (f.varint + Serialize(fields[1..]));
    assert bytes[1..] == f.varint + Serialize(fields[1..]);
    assert ValidFields(fields[1..]);
  }

  lemma PrependField(o: Owner, f: Field, rest: seq<Byte>, result: Owner)
    requires IsField(f) && Decodes(Put(o, f), rest, result)
    ensures Decodes(o, [Key(f)] + f.varint + rest, result)
  {
    var fields :| ValidFields(fields) && Serialize(fields) == rest && Meaning(Put(o, f), fields) == result;
    var all := [f] + fields;
    assert all[1..] == fields && ValidFields(all) && Serialize(all) == [Key(f)] + f.varint + rest;
    assert Meaning(o, all) == result;
  }

  /** Taking one field off keeps what the record means. */
  lemma DecodesStep(o: Owner, bytes: seq<Byte>, n: nat, result: Owner)
    requires bytes != [] && bytes[0] % 8 == 0 && 0 < n <= |bytes| - 1 && IsVarint(bytes[1..][..n])
    requires VarintValue(bytes[1..][..n]) < WORD
    ensures Decodes(o, bytes, result) <==>
            Decodes(Put(o, Field(bytes[0] / 8, bytes[1..][..n])), bytes[1..][n..], result)
  {
    var f := Field(bytes[0] / 8, bytes[1..][..n]);
    assert bytes == [Key(f)] + f.varint + bytes[1..][n..];
    if Decodes(Put(o, f), bytes[1..][n..], result) {
      PrependField(o, f, bytes[1..][n..], result);
    }
    if Decodes(o, bytes, result) {
      var g := FirstField(o, bytes, result);
      VarintUnique(bytes[1..], n, |g.varint|);
    }
  }

  /** A record with another wire type, a cut-off or overlong varint or a value
      beyond 32 bits in front decodes to nothing. */
  lemma NotDecodable(o: Owner, bytes: seq<Byte>)
    requires bytes != []
    requires || bytes[0] % 8 != 0
             || !(exists n :: 0 < n <= |bytes| - 1 && IsVarint(bytes[1..][..n]))
             || (exists n :: 0 < n <= |bytes| - 1 && IsVarint(bytes[1..][..n])
                             && VarintValue(bytes[1..][..n]) >= 0x1_0000_0000)
    ensures forall result :: !Decodes(o, bytes, result)
  {
    forall result ensures !Decodes(o, bytes, result) {
      if Decodes(o, bytes, result) {
        var f := FirstField(o, bytes, result);
        if n :| 0 < n <= |bytes| - 1 && IsVarint(bytes[1..][..n]) && VarintValue(bytes[1..][..n]) >= WORD {
          VarintUnique(bytes[1..], n, |f.varint|);
        }
      }
    }
  }

  /** `decode_rootless_owner`: gives an owner exactly for the well-formed records,
      and then the one they mean. */
  method DecodeRootlessOwner(bytes: seq<Byte>) returns (r: Option<Owner>)
    ensures r.Some? ==> forall result :: Decodes(Owner(0, 0), bytes, result) <==> result == r.value
    ensures r.None? ==> forall result :: !Decodes(Owner(0, 0), bytes, result)
  {
    var owner := Owner(0, 0);
    var rest := bytes;
    while rest != []
      invariant forall result :: Decodes(Owner(0, 0), bytes, result) <==> Decodes(owner, rest, result)
      decreases |rest|
    {
      var key, tail := rest[0], rest[1..];
      if key % 8 != 0 {
        NotDecodable(owner, rest);
        return None;
      }
      var varint := ReadVarint(tail);
      if varint.None? || varint.value.0 >= WORD {
        NotDecodable(owner, rest);
        return None;
      }
      var (value, consumed) := varint.value;
      forall result { DecodesStep(owner, rest, consumed, result); }
      owner := match key / 8
        case 1 => owner.(uid := if value == ROOTLESS_NOOP_ID then 0 else value)
        case 2 => owner.(gid := if value == ROOTLESS_NOOP_ID then 0 else value)
        case _ => owner;
      rest := tail[consumed..];
    }
    NothingLeft(owner);
    return Some(owner);
  }

  lemma NothingLeft(o: Owner)
    ensures forall result :: Decodes(o, [], result) <==> result == o
  {
    assert ValidFields([]) && Serialize([]) == [] && Meaning(o, []) == o;
    forall result | Decodes(o, [], result) ensures result == o {
      var fields :| ValidFields(fields) && Serialize(fields) == [] && Meaning(o, fields) == result;
      assert fields == [];
    }
  }

  /** A record means one owner at most. */
  lemma {:induction false} DecodesUnique(o: Owner, bytes: seq<Byte>, a: Owner, b: Owner)
    requires Decodes(o, bytes, a) && Decodes(o, bytes, b)
    ensures a == b
    decreases |bytes|
  {
    if bytes == [] {
      NothingLeft(o);
    } else {
      var f := FirstField(o, bytes, a);
      var g := FirstField(o, bytes, b);
      VarintUnique(bytes[1..], |f.varint|, |g.varint|);
      assert f == g;
      DecodesUnique(Put(o, f), bytes[1..][|f.varint|..], a, b);
    }
  }

  // ----- the round trip

  /** A value in exactly `n` bytes, padded if need be. */
  function Varint(value: nat, n: nat): seq<Byte>
    requires n >= 1 && value < Pow128(n)
    decreases n
  {
    if n == 1 then assert Pow128(1) == 128; [value]
    else [128 + value % 128] + Varint(value / 128, n - 1)
  }

  lemma {:induction false} VarintBack(value: nat, n: nat)
    requires 1 <= n <= 6 && value < Pow128(n)
    ensures IsVarint(Varint(value, n)) && VarintValue(Varint(value, n)) == value && |Varint(value, n)| == n
  {
    var v := Varint(value, n);
    if n == 1 {
      assert Pow128(1) == 128 && v[1..] == [];
    } else {
      VarintBack(value / 128, n - 1);
      VarintCons(128 + value % 128, Varint(value / 128, n - 1));
    }
  }

  lemma VarintCons(b: Byte, v: seq<Byte>)
    requires b >= 128 && IsVarint(v) && |v| < 6
    ensures IsVarint([b] + v) && VarintValue([b] + v) == b - 128 + 128 * VarintValue(v)
  {
    var w := [b] + v;
    assert w[1..] == v;
    assert forall i :: 0 < i < |w| ==> w[i] == v[i - 1];
  }

  /** Encoding and decoding an owner: for all 32-bit ids, in either order, padded to
      any length up to six bytes, and with a zero field left out or not; the id that
      means "unchanged" is read as root. */
  lemma OwnerRoundTrip(uid: nat, gid: nat, i: nat, j: nat)
    requires uid <= 0xFFFF_FFFF && gid <= 0xFFFF_FFFF
    requires 1 <= i <= 6 && 1 <= j <= 6 && uid < Pow128(i) && gid < Pow128(j)
    ensures var u, g := Field(1, Varint(uid, i)), Field(2, Varint(gid, j));
            var owner := Owner(if uid == 0xFFFF_FFFF then 0 else uid, if gid == 0xFFFF_FFFF then 0 else gid);
            && Decodes(Owner(0, 0), Serialize([u, g]), owner) && Decodes(Owner(0, 0), Serialize([g, u]), owner)
            && (gid == 0 ==> Decodes(Owner(0, 0), Serialize([u]), owner))
            && (uid == 0 ==> Decodes(Owner(0, 0), Serialize([g]), owner))
            && (uid == 0 && gid == 0 ==> Decodes(Owner(0, 0), Serialize([]), owner))
  {
    var u, g := Field(1, Varint(uid, i)), Field(2, Varint(gid, j));
    VarintBack(uid, i);
    VarintBack(gid, j);
    FieldsDecode(u, g);
  }

  lemma FieldsDecode(u: Field, g: Field)
    requires IsField(u) && u.tag == 1 && IsField(g) && g.tag == 2
    ensures var o := Owner(0, 0);
            var uid, gid := VarintValue(u.varint), VarintValue(g.varint);
            var owner := Owner(if uid == 0xFFFF_FFFF then 0 else uid, if gid == 0xFFFF_FFFF then 0 else gid);
            && Decodes(o, Serialize([u, g]), owner) && Decodes(o, Serialize([g, u]), owner)
            && Decodes(o, Serialize([u]), owner.(gid := 0)) && Decodes(o, Serialize([g]), owner.(uid := 0))
            && Decodes(o, Serialize([]), o)
  {
    var o := Owner(0, 0);
    MeaningTwo(o, u, g);
    MeaningTwo(o, g, u);
    assert ValidFields([u, g]) && ValidFields([g, u]) && ValidFields([u]) && ValidFields([g]) && ValidFields([]);
    assert Meaning(o, []) == o;
  }

  lemma MeaningTwo(o: Owner, f: Field, g: Field)
    ensures Meaning(o, [f]) == Put(o, f) && Meaning(o, [f, g]) == Put(Put(o, f), g)
  {
    assert [f][1..] == [] && [f, g][1..] == [g] && [g][1..] == [];
    assert Meaning(Put(o, f), [g]) == Put(Put(o, f), g);
  }

  /** Of several fields of a kind the last one counts, and fields of other kinds count
      for nothing. */
  lemma LastFieldWins(first: Field, other: Field, last: Field)
    requires IsField(first) && IsField(other) && IsField(last)
    requires first.tag == 1 && last.tag == 1 && other.tag != 1 && other.tag != 2
    requires VarintValue(last.varint) != 0xFFFF_FFFF
    ensures Decodes(Owner(0, 0), Serialize([first, other, last]), Owner(VarintValue(last.varint), 0))
  {
    var fields := [first, other, last];
    assert fields[1..] == [other, last] && [other, last][1..] == [last] && [last][1..] == [];
    var o := Owner(0, 0);
    var a := Put(o, first);
    assert Meaning(Put(a, other), [last]) == Put(Put(a, other), last);
    assert Meaning(a, [other, last]) == Meaning(Put(a, other), [last]);
    assert Meaning(o, fields) == Meaning(a, [other, last]);
    assert ValidFields(fields);
  }

  /** The record of user and group 1000, byte by byte. */
  lemma RecordOfThousand()
    ensures Decodes(Owner(0, 0), [0x08, 0xe8, 0x07, 0x10, 0xe8, 0x07], Owner(1000, 1000))
  {
    var v: seq<Byte> := [0xe8, 0x07];
    var u, g := Field(1, v), Field(2, v);
    assert v[1..] == [0x07] && VarintValue([0x07]) == 7 && VarintValue(v) == 1000;
    FieldsDecode(u, g);
    assert [u, g][1..] == [g] && [g][1..] == [] && Serialize([g]) == [0x10, 0xe8, 0x07];
    assert Serialize([u, g]) == [0x08, 0xe8, 0x07, 0x10, 0xe8, 0x07];
  }
}
