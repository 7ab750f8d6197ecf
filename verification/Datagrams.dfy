/** The headers of forwarded UDP datagrams, between Edges (mesh_protocol.rs) and between an Edge and
    its Connector (protocol.rs). */
module Datagrams {
  import opened Wrappers

  type Byte = b: nat | b < 256

  datatype Result<T, E> = Ok(value: T) | Err(error: E)

  // ----- Big-endian numbers -----

  function Capacity(width: nat): (n: nat)
    ensures n > 0
  {
    if width == 0 then 1 else 256 * Capacity(width - 1)
  }

  function BigEndian(n: nat, width: nat): (bytes: seq<Byte>)
    ensures |bytes| == width
  {
    if width == 0 then [] else BigEndian(n / 256, width - 1) + [n % 256]
  }

  function FromBigEndian(bytes: seq<Byte>): nat {
    if bytes == [] then 0 else 256 * FromBigEndian(bytes[..|bytes| - 1]) + bytes[|bytes| - 1]
  }

  lemma {:induction false} NumberComesBack(n: nat, width: nat)
    requires n < Capacity(width)
    ensures FromBigEndian(BigEndian(n, width)) == n
  {
    if width > 0 {
      NumberComesBack(n / 256, width - 1);
      var bytes := BigEndian(n, width);
      assert bytes[..width - 1] == BigEndian(n / 256, width - 1);
    }
  }

  lemma {:induction false} BytesComeBack(bytes: seq<Byte>)
    ensures FromBigEndian(bytes) < Capacity(|bytes|)
    ensures BigEndian(FromBigEndian(bytes), |bytes|) == bytes
  {
    if bytes != [] {
      BytesComeBack(bytes[..|bytes| - 1]);
      assert bytes == bytes[..|bytes| - 1] + [bytes[|bytes| - 1]];
    }
  }

  const U16_VALUES: nat := 0x1_0000
  const U64_VALUES: nat := 0x1_0000_0000_0000_0000

  type U64 = n: nat | n < U64_VALUES

  lemma Widths()
    ensures Capacity(2) == U16_VALUES && Capacity(8) == U64_VALUES
  {
    assert Capacity(4) == 0x1_0000_0000 by { assert Capacity(2) == 0x1_0000; }
    assert Capacity(6) == 0x1_0000_0000_0000;
  }

  // ----- Text -----

  predicate Continues(b: Byte) { 0x80 <= b < 0xC0 }

  /** Well-formed UTF-8, as in section 4 of RFC 3629. */
  predicate ValidUtf8(s: seq<Byte>)
    decreases |s|
  {
    if s == [] then true
    else if s[0] < 0x80 then ValidUtf8(s[1..])
    else if 0xC2 <= s[0] < 0xE0 then |s| >= 2 && Continues(s[1]) && ValidUtf8(s[2..])
    else if 0xE0 <= s[0] < 0xF0 then
      && |s| >= 3 && Continues(s[1]) && Continues(s[2])
      && (s[0] == 0xE0 ==> s[1] >= 0xA0) && (s[0] == 0xED ==> s[1] < 0xA0) && ValidUtf8(s[3..])
    else
      && 0xF0 <= s[0] < 0xF5 && |s| >= 4 && Continues(s[1]) && Continues(s[2]) && Continues(s[3])
      && (s[0] == 0xF0 ==> s[1] >= 0x90) && (s[0] == 0xF4 ==> s[1] < 0x90) && ValidUtf8(s[4..])
  }

  /** A Unicode scalar value: a code point that is not a surrogate. */
  type Scalar = c: nat | c < 0x11_0000 && !(0xD800 <= c < 0xE000)

  function EncodeScalar(c: Scalar): seq<Byte> {
    if c < 0x80 then [c]
    else if c < 0x800 then [0xC0 + c / 0x40, 0x80 + c % 0x40]
    else if c < 0x1_0000 then [0xE0 + c / 0x1000, 0x80 + c / 0x40 % 0x40, 0x80 + c % 0x40]
    else [0xF0 + c / 0x4_0000, 0x80 + c / 0x1000 % 0x40, 0x80 + c / 0x40 % 0x40, 0x80 + c % 0x40]
  }

  function EncodeText(cs: seq<Scalar>): seq<Byte> {
    if cs == [] then [] else EncodeScalar(cs[0]) + EncodeText(cs[1..])
  }

  lemma ScalarIsValid(c: Scalar, rest: seq<Byte>)
    requires ValidUtf8(rest)
    ensures ValidUtf8(EncodeScalar(c) + rest)
  {
    var first := EncodeScalar(c);
    var s := first + rest;
    assert s[|first|..] == rest;
  }

  lemma Divides(q: nat, r: nat, d: nat)
    requires r < d
    ensures (d * q + r) / d == q && (d * q + r) % d == r
  {
    assert (d * q + r) - d * ((d * q + r) / d) == (d * q + r) % d;
    assert d * (q - (d * q + r) / d) == (d * q + r) % d - r;
    if q < (d * q + r) / d { Multiplies(d, (d * q + r) / d - q); }
    if q > (d * q + r) / d { Multiplies(d, q - (d * q + r) / d); }
  }

  lemma Multiplies(d: nat, k: int)
    requires k >= 1
    ensures d * k >= d
  {
  }

  /** The digits to the base 64 of a number below 2 to the 24. */
  lemma SixBits(a: nat, b: nat, c: nat, d: nat)
    requires b < 0x40 && c < 0x40 && d < 0x40
    ensures var n := 0x4_0000 * a + 0x1000 * b + 0x40 * c + d;
            n % 0x40 == d && n / 0x40 % 0x40 == c && n / 0x1000 % 0x40 == b && n / 0x4_0000 == a && n / 0x40 >= c
    ensures a == 0 ==> (0x1000 * b + 0x40 * c + d) / 0x1000 == b
    ensures a == 0 && b == 0 ==> (0x40 * c + d) / 0x40 == c
  {
    var n := 0x4_0000 * a + 0x1000 * b + 0x40 * c + d;
    Divides(0x1000 * a + 0x40 * b + c, d, 0x40);
    Divides(0x40 * a + b, c, 0x40);
    Divides(0x40 * a + b, 0x40 * c + d, 0x1000);
    Divides(a, b, 0x40);
    Divides(a, 0x1000 * b + 0x40 * c + d, 0x4_0000);
  }

  function Low(b: Byte): int { b as int - 0x80 }

  /** The scalar value a well-formed sequence begins with. */
  lemma FirstScalar(s: seq<Byte>) returns (c: Scalar)
    requires s != [] && ValidUtf8(s)
    ensures var n := |EncodeScalar(c)|; n <= |s| && s[..n] == EncodeScalar(c) && ValidUtf8(s[n..])
  {
    if s[0] < 0x80 {
      c := s[0];
    } else if s[0] < 0xE0 {
      SixBits(0, 0, s[0] as int - 0xC0, Low(s[1]));
      c := 0x40 * (s[0] as int - 0xC0) + Low(s[1]);
    } else if s[0] < 0xF0 {
      SixBits(0, s[0] as int - 0xE0, Low(s[1]), Low(s[2]));
      c := 0x1000 * (s[0] as int - 0xE0) + 0x40 * Low(s[1]) + Low(s[2]);
    } else {
      SixBits(s[0] as int - 0xF0, Low(s[1]), Low(s[2]), Low(s[3]));
      c := 0x4_0000 * (s[0] as int - 0xF0) + 0x1000 * Low(s[1]) + 0x40 * Low(s[2]) + Low(s[3]);
    }
  }

  lemma {:induction false} EncodedTextIsValid(cs: seq<Scalar>)
    ensures ValidUtf8(EncodeText(cs))
  {
    if cs != [] {
      EncodedTextIsValid(cs[1..]);
      ScalarIsValid(cs[0], EncodeText(cs[1..]));
    }
  }

  lemma {:induction false} ValidIsEncoded(s: seq<Byte>) returns (cs: seq<Scalar>)
    requires ValidUtf8(s)
    ensures EncodeText(cs) == s
    decreases |s|
  {
    if s == [] {
      cs := [];
    } else {
      var c := FirstScalar(s);
      var n := |EncodeScalar(c)|;
      var rest := ValidIsEncoded(s[n..]);
      cs := [c] + rest;
      assert cs[1..] == rest && s == s[..n] + s[n..];
    }
  }

  /** The bytes accepted as text are exactly the encodings of sequences of scalar values. */
  lemma TextIsEncodedScalars(s: seq<Byte>)
    ensures ValidUtf8(s) <==> exists cs: seq<Scalar> :: EncodeText(cs) == s
  {
    if ValidUtf8(s) {
      var cs := ValidIsEncoded(s);
      assert EncodeText(cs) == s;
    }
    if cs: seq<Scalar> :| EncodeText(cs) == s {
      EncodedTextIsValid(cs);
    }
  }

  /** A string, by its bytes. */
  type Text = s: seq<Byte> | ValidUtf8(s)

  // ----- Datagrams between Edges -----

  const MAX_ID_LEN: nat := 256
  const DATAGRAM_VERSION: Byte := 1
  const FIXED_LEN: nat := 18

  datatype Kind = Request | Reply

  datatype MeshHeader = MeshHeader(kind: Kind, requestId: U64, generation: U64, ingress: Text, tenant: Text,
    hostname: Text)

  /** The index of the field that is too long. */
  datatype EncodeError = FieldTooLong(index: nat)

  datatype DecodeError =
    | TruncatedHeader | UnsupportedVersion | UnknownKind
    | TruncatedField | FieldLength | FieldEncoding

  function Fields(h: MeshHeader): seq<Text> { [h.ingress, h.tenant, h.hostname] }

  function KindByte(k: Kind): Byte { if k.Request? then 1 else 2 }

  function EncodedLength(h: MeshHeader): nat { 1 + 1 + 8 + 8 + 6 + |h.ingress| + |h.tenant| + |h.hostname| }

  /** A field behind its length, which is cut to 16 bits. */
  function Framed(field: seq<Byte>): seq<Byte> { BigEndian(|field| % U16_VALUES, 2) + field }

  function FramedAll(fields: seq<Text>): seq<Byte> {
    if fields == [] then [] else FramedAll(fields[..|fields| - 1]) + Framed(fields[|fields| - 1])
  }

  function Fixed(h: MeshHeader): (bytes: seq<Byte>)
    ensures |bytes| == FIXED_LEN
  {
    [DATAGRAM_VERSION, KindByte(h.kind)] + BigEndian(h.requestId, 8) + BigEndian(h.generation, 8)
  }

  predicate Short(field: seq<Byte>) { |field| <= MAX_ID_LEN }

  function Encoded(h: MeshHeader, payload: seq<Byte>): Result<seq<Byte>, EncodeError> {
    if !Short(h.ingress) then Err(FieldTooLong(0))
    else if !Short(h.tenant) then Err(FieldTooLong(1))
    else if !Short(h.hostname) then Err(FieldTooLong(2))
    else Ok(Fixed(h) + (FramedAll(Fields(h)) + payload))
  }

  method Encode(h: MeshHeader, payload: seq<Byte>) returns (r: Result<seq<Byte>, EncodeError>)
    ensures r == Encoded(h, payload)
  {
    var fields := Fields(h);
    for i := 0 to 3
      invariant forall j :: 0 <= j < i ==> Short(fields[j])
    {
      if |fields[i]| > MAX_ID_LEN {
        assert (i > 0 ==> Short(fields[0])) && (i > 1 ==> Short(fields[1]));
        return Err(FieldTooLong(i));
      }
    }
    assert Short(fields[0]) && Short(fields[1]) && Short(fields[2]);
    var buf: seq<Byte> := [DATAGRAM_VERSION];
    buf := buf + [KindByte(h.kind)];
    buf := buf + BigEndian(h.requestId, 8);
    buf := buf + BigEndian(h.generation, 8);
    for i := 0 to 3
      invariant buf == Fixed(h) + FramedAll(fields[..i])
    {
      assert fields[..i + 1][..i] == fields[..i];
      buf := buf + BigEndian(|fields[i]| % U16_VALUES, 2);
      buf := buf + fields[i];
      assert buf == Fixed(h) + (FramedAll(fields[..i]) + Framed(fields[i]));
    }
    assert fields[..3] == fields;
    buf := buf + payload;
    assert buf == Fixed(h) + (FramedAll(fields) + payload);
    return Ok(buf);
  }

  datatype Parsed<T> = Parsed(item: T, rest: seq<Byte>)

  function ReadField(data: seq<Byte>): Result<Parsed<Text>, DecodeError> {
    if |data| < 2 then Err(TruncatedField)
    else
      var n := FromBigEndian(data[..2]);
      if n > MAX_ID_LEN || |data| < 2 + n then Err(FieldLength)
      else if !ValidUtf8(data[2..2 + n]) then Err(FieldEncoding)
      else Ok(Parsed(data[2..2 + n], data[2 + n..]))
  }

  function ReadFields(data: seq<Byte>, n: nat): Result<Parsed<seq<Text>>, DecodeError> {
    if n == 0 then Ok(Parsed([], data))
    else
      match ReadFields(data, n - 1)
      case Err(e) => Err(e)
      case Ok(p) =>
        match ReadField(p.rest)
        case Err(e) => Err(e)
        case Ok(q) => Ok(Parsed(p.item + [q.item], q.rest))
  }

  function Decoded(data: seq<Byte>): Result<Parsed<MeshHeader>, DecodeError> {
    if |data| < FIXED_LEN then Err(TruncatedHeader)
    else if data[0] != DATAGRAM_VERSION then Err(UnsupportedVersion)
    else if data[1] != 1 && data[1] != 2 then Err(UnknownKind)
    else
      match ReadFields(data[FIXED_LEN..], 3)
      case Err(e) => Err(e)
      case Ok(p) =>
        BytesComeBack(data[2..10]); BytesComeBack(data[10..18]); Widths(); FieldCount(data[FIXED_LEN..], 3);
        Ok(Parsed(MeshHeader(if data[1] == 1 then Request else Reply,
                             FromBigEndian(data[2..10]), FromBigEndian(data[10..18]),
                             p.item[0], p.item[1], p.item[2]), p.rest))
  }

  lemma {:induction false} FieldCount(data: seq<Byte>, n: nat)
    ensures ReadFields(data, n).Ok? ==> |ReadFields(data, n).value.item| == n
  {
    if n > 0 { FieldCount(data, n - 1); }
  }

  /** An error in an early field is the result whatever follows. */
  lemma {:induction false} ErrorStays(data: seq<Byte>, n: nat, m: nat)
    requires n <= m && ReadFields(data, n).Err?
    ensures ReadFields(data, m) == Err(ReadFields(data, n).error)
  {
    if n < m { ErrorStays(data, n, m - 1); }
  }

  /** The loop over the three fields. */
  method DecodeFields(data: seq<Byte>) returns (r: Result<Parsed<seq<Text>>, DecodeError>)
    ensures r == ReadFields(data, 3)
  {
    var fields: seq<Text>, rest := [], data;
    for i := 0 to 3
      invariant ReadFields(data, i) == Ok(Parsed(fields, rest))
    {
      var field := ReadField(rest);
      if field.Err? {
        assert ReadFields(data, i + 1) == Err(field.error);
        ErrorStays(data, i + 1, 3);
        return Err(field.error);
      }
      fields, rest := fields + [field.value.item], field.value.rest;
    }
    return Ok(Parsed(fields, rest));
  }

  method Decode(data: seq<Byte>) returns (r: Result<Parsed<MeshHeader>, DecodeError>)
    ensures r == Decoded(data)
  {
    if |data| < FIXED_LEN {
      return Err(TruncatedHeader);
    }
    if data[0] != DATAGRAM_VERSION {
      return Err(UnsupportedVersion);
    }
    if data[1] != 1 && data[1] != 2 {
      return Err(UnknownKind);
    }
    var kind := if data[1] == 1 then Request else Reply;
    BytesComeBack(data[2..10]);
    BytesComeBack(data[10..18]);
    Widths();
    var requestId, generation := FromBigEndian(data[2..10]), FromBigEndian(data[10..18]);
    var read := DecodeFields(data[FIXED_LEN..]);
    if read.Err? {
      return Err(read.error);
    }
    FieldCount(data[FIXED_LEN..], 3);
    var fields := read.value.item;
    return Ok(Parsed(MeshHeader(kind, requestId, generation, fields[0], fields[1], fields[2]), read.value.rest));
  }

  // ----- What is promised of them -----

  lemma FieldComesBack(field: Text, rest: seq<Byte>)
    requires Short(field)
    ensures ReadField(Framed(field) + rest) == Ok(Parsed(field, rest))
  {
    var data := Framed(field) + rest;
    Widths();
    NumberComesBack(|field|, 2);
    assert data[..2] == BigEndian(|field|, 2);
    assert data[2..2 + |field|] == field;
    assert data[2 + |field|..] == rest;
  }

  lemma CutIsFramed(data: seq<Byte>, n: nat)
    requires 2 + n <= |data| && n == FromBigEndian(data[..2])
    ensures n < U16_VALUES && data == Framed(data[2..2 + n]) + data[2 + n..]
  {
    Widths();
    BytesComeBack(data[..2]);
    assert Framed(data[2..2 + n]) == data[..2] + data[2..2 + n];
    Cut(data, 2, 2 + n);
    Associates(data[..2], data[2..2 + n], data[2 + n..]);
  }

  lemma FieldIsFramed(data: seq<Byte>)
    requires ReadField(data).Ok?
    ensures var p := ReadField(data).value; Short(p.item) && data == Framed(p.item) + p.rest
  {
    CutIsFramed(data, FromBigEndian(data[..2]));
  }

  lemma {:induction false} FieldsComeBack(fields: seq<Text>, rest: seq<Byte>)
    requires forall f :: f in fields ==> Short(f)
    ensures ReadFields(FramedAll(fields) + rest, |fields|) == Ok(Parsed(fields, rest))
  {
    var n := |fields|;
    if n == 0 {
      assert FramedAll(fields) + rest == rest;
    } else {
      var last := Framed(fields[n - 1]);
      FieldsComeBack(fields[..n - 1], last + rest);
      FieldComesBack(fields[n - 1], rest);
      assert FramedAll(fields) + rest == FramedAll(fields[..n - 1]) + (last + rest);
      assert fields == fields[..n - 1] + [fields[n - 1]];
    }
  }

  lemma {:induction false} FieldsAreFramed(data: seq<Byte>, n: nat)
    requires ReadFields(data, n).Ok?
    ensures var p := ReadFields(data, n).value;
            |p.item| == n && (forall f :: f in p.item ==> Short(f)) && data == FramedAll(p.item) + p.rest
  {
    if n > 0 {
      FieldsAreFramed(data, n - 1);
      var p := ReadFields(data, n - 1).value;
      FieldIsFramed(p.rest);
      var q := ReadField(p.rest).value;
      assert (p.item + [q.item])[..n - 1] == p.item;
      assert data == (FramedAll(p.item) + Framed(q.item)) + q.rest;
    }
  }

  lemma FramedLength(h: MeshHeader)
    ensures |FramedAll(Fields(h))| == 6 + |h.ingress| + |h.tenant| + |h.hostname|
  {
    var f := Fields(h);
    assert f[..3] == f && f[..3][..2] == f[..2] && f[..2][..1] == f[..1] && f[..1][..0] == [];
    assert |FramedAll(f[..1])| == 2 + |f[0]| && |FramedAll(f[..2])| == 4 + |f[0]| + |f[1]|;
  }

  lemma FixedComesBack(h: MeshHeader, data: seq<Byte>)
    requires |data| >= FIXED_LEN && data[..FIXED_LEN] == Fixed(h)
    ensures data[0] == DATAGRAM_VERSION && data[1] == KindByte(h.kind)
    ensures FromBigEndian(data[2..10]) == h.requestId && FromBigEndian(data[10..18]) == h.generation
  {
    Widths();
    NumberComesBack(h.requestId, 8);
    NumberComesBack(h.generation, 8);
    assert data[..FIXED_LEN][2..10] == data[2..10] == BigEndian(h.requestId, 8);
    assert data[..FIXED_LEN][10..18] == data[10..18] == BigEndian(h.generation, 8);
  }

  /** Encoding succeeds exactly when every field is short enough to be sent whole, and then the
      receiver reads the same header and the same payload. */
  lemma DecodeUndoesEncode(h: MeshHeader, payload: seq<Byte>)
    ensures Encoded(h, payload).Ok? <==> Short(h.ingress) && Short(h.tenant) && Short(h.hostname)
    ensures Encoded(h, payload).Ok? ==>
              && Decoded(Encoded(h, payload).value) == Ok(Parsed(h, payload))
              && |Encoded(h, payload).value| == EncodedLength(h) + |payload|
  {
    if Encoded(h, payload).Ok? {
      var data := Encoded(h, payload).value;
      FieldsComeBack(Fields(h), payload);
      assert data[FIXED_LEN..] == FramedAll(Fields(h)) + payload;
      FixedComesBack(h, data);
      FramedLength(h);
    }
  }

  /** Whatever is accepted is the encoding of what was read: no two datagrams read alike. */
  lemma EncodeUndoesDecode(data: seq<Byte>)
    requires Decoded(data).Ok?
    ensures var p := Decoded(data).value; Encoded(p.item, p.rest) == Ok(data)
  {
    var p := Decoded(data).value;
    FieldsAreFramed(data[FIXED_LEN..], 3);
    var fields := ReadFields(data[FIXED_LEN..], 3).value.item;
    assert fields == Fields(p.item);
    BytesComeBack(data[2..10]);
    BytesComeBack(data[10..18]);
    assert data[..FIXED_LEN] == [data[0], data[1]] + data[2..10] + data[10..18];
    assert data[..FIXED_LEN] == Fixed(p.item);
    assert data == data[..FIXED_LEN] + data[FIXED_LEN..];
  }

  lemma MorePayload(data: seq<Byte>, more: seq<Byte>)
    requires Decoded(data).Ok?
    ensures var p := Decoded(data).value; Decoded(data + more) == Ok(Parsed(p.item, p.rest + more))
  {
    EncodeUndoesDecode(data);
    var p := Decoded(data).value;
    DecodeUndoesEncode(p.item, p.rest + more);
    assert Fixed(p.item) + (FramedAll(Fields(p.item)) + (p.rest + more)) == data + more;
  }

  /** A datagram cut inside its header is refused; cut inside its payload, it keeps its header. */
  lemma CutDatagram(h: MeshHeader, payload: seq<Byte>, k: nat)
    requires Encoded(h, payload).Ok? && k <= |Encoded(h, payload).value|
    ensures var cut := Encoded(h, payload).value[..k];
            if k < EncodedLength(h) then Decoded(cut).Err?
            else k - EncodedLength(h) <= |payload| && Decoded(cut) == Ok(Parsed(h, payload[..k - EncodedLength(h)]))
  {
    var data := Encoded(h, payload).value;
    DecodeUndoesEncode(h, payload);
    assert data[..k] + data[k..] == data;
    if k >= EncodedLength(h) {
      FramedLength(h);
      var kept := payload[..k - EncodedLength(h)];
      DecodeUndoesEncode(h, kept);
      assert data[..k] == Encoded(h, kept).value;
    } else if Decoded(data[..k]).Ok? {
      EncodeUndoesDecode(data[..k]);
      DecodeUndoesEncode(Decoded(data[..k]).value.item, Decoded(data[..k]).value.rest);
      MorePayload(data[..k], data[k..]);
    }
  }

  // ----- Datagrams between an Edge and its Connector -----

  datatype Header = Header(requestId: U64, hostname: Text)

  function HeaderEncoded(h: Header, payload: seq<Byte>): seq<Byte> {
    BigEndian(h.requestId, 8) + (Framed(h.hostname) + payload)
  }

  function HeaderDecoded(data: seq<Byte>): Result<Parsed<Header>, ()> {
    if |data| < 10 then Err(())
    else
      var n := FromBigEndian(data[8..10]);
      if |data| < 10 + n || !ValidUtf8(data[10..10 + n]) then Err(())
      else
        BytesComeBack(data[..8]); Widths();
        Ok(Parsed(Header(FromBigEndian(data[..8]), data[10..10 + n]), data[10 + n..]))
  }

  /** The length of the hostname is cut to 16 bits without a check, so the header comes back exactly when
      the hostname has fewer than 65536 bytes. */
  lemma HeaderComesBackExactly(h: Header, payload: seq<Byte>)
    ensures HeaderDecoded(HeaderEncoded(h, payload)) == Ok(Parsed(h, payload)) <==> |h.hostname| < U16_VALUES
  {
    var data := HeaderEncoded(h, payload);
    var n := |h.hostname| % U16_VALUES;
    Widths();
    NumberComesBack(h.requestId, 8);
    NumberComesBack(n, 2);
    assert data[..8] == BigEndian(h.requestId, 8);
    assert data[8..10] == BigEndian(n, 2);
    assert data[10..10 + n] == h.hostname[..n];
    if |h.hostname| < U16_VALUES {
      assert h.hostname[..n] == h.hostname;
      assert data[10 + n..] == payload;
    }
  }

  lemma {:induction false} AsciiIsValid(s: seq<Byte>)
    requires forall i :: 0 <= i < |s| ==> s[i] < 0x80
    ensures ValidUtf8(s)
  {
    if s != [] { AsciiIsValid(s[1..]); }
  }

  lemma HeaderSlices(id: seq<Byte>, size: seq<Byte>, rest: seq<Byte>)
    requires |id| == 8 && |size| == 2
    ensures var data := id + (size + rest); data[..8] == id && data[8..10] == size && data[10..] == rest
  {
  }

  /** A datagram that announces an empty hostname. */
  lemma EmptyHostnameIsRead(id: U64, rest: seq<Byte>)
    ensures HeaderDecoded(BigEndian(id, 8) + (BigEndian(0, 2) + rest)) == Ok(Parsed(Header(id, []), rest))
  {
    Widths();
    NumberComesBack(id, 8);
    NumberComesBack(0, 2);
    HeaderSlices(BigEndian(id, 8), BigEndian(0, 2), rest);
  }

  lemma WrappedHostnameIsLost(h: Header, payload: seq<Byte>)
    requires |h.hostname| % U16_VALUES == 0
    ensures HeaderDecoded(HeaderEncoded(h, payload)) == Ok(Parsed(Header(h.requestId, []), h.hostname + payload))
  {
    Associates(BigEndian(0, 2), h.hostname, payload);
    EmptyHostnameIsRead(h.requestId, h.hostname + payload);
  }

  /** The failing case: a hostname of 65536 letters is announced with length zero, so the receiver reads
      an empty hostname and takes the hostname for payload. */
  lemma LongHostnameIsLost(id: U64, payload: seq<Byte>)
    ensures var long: seq<Byte> := seq(U16_VALUES, _ => 0x61);
            && ValidUtf8(long)
            && HeaderDecoded(HeaderEncoded(Header(id, long), payload)) == Ok(Parsed(Header(id, []), long + payload))
  {
    var long: seq<Byte> := seq(U16_VALUES, _ => 0x61);
    AsciiIsValid(long);
    WrappedHostnameIsLost(Header(id, long), payload);
  }

  lemma HeaderReencodes(data: seq<Byte>)
    requires HeaderDecoded(data).Ok?
    ensures var p := HeaderDecoded(data).value; HeaderEncoded(p.item, p.rest) == data && |p.item.hostname| < U16_VALUES
  {
    var n := FromBigEndian(data[8..10]);
    BytesComeBack(data[..8]);
    assert data[8..][..2] == data[8..10] && data[8..][2..2 + n] == data[10..10 + n] &&
      data[8..][2 + n..] == data[10 + n..];
    CutIsFramed(data[8..], n);
    assert data == data[..8] + data[8..];
  }

  lemma MoreHeaderPayload(data: seq<Byte>, more: seq<Byte>)
    requires HeaderDecoded(data).Ok?
    ensures var p := HeaderDecoded(data).value; HeaderDecoded(data + more) == Ok(Parsed(p.item, p.rest + more))
  {
    HeaderReencodes(data);
    var p := HeaderDecoded(data).value;
    HeaderComesBackExactly(p.item, p.rest + more);
    Associates(Framed(p.item.hostname), p.rest, more);
    Associates(BigEndian(p.item.requestId, 8), Framed(p.item.hostname) + p.rest, more);
  }

  /** Cut inside its header, a datagram is refused, as between Edges. */
  lemma CutHeader(h: Header, payload: seq<Byte>, k: nat)
    requires |h.hostname| < U16_VALUES && k < 10 + |h.hostname|
    ensures HeaderDecoded(HeaderEncoded(h, payload)[..k]).Err?
  {
    var data := HeaderEncoded(h, payload);
    HeaderComesBackExactly(h, payload);
    assert data[..k] + data[k..] == data;
    if HeaderDecoded(data[..k]).Ok? {
      MoreHeaderPayload(data[..k], data[k..]);
    }
  }
}
