/** Quoting of TXT record values (dns/mod.rs). A `char` is a Unicode scalar value, as in the source. */
module TxtQuoting {
  import opened Wrappers
  import Datagrams

  const MAX_CHUNK_BYTES := 255

  // ----- Decoding -----

  /** The White_Space property of Unicode, which trimming goes by. */
  predicate IsWhitespace(c: char) {
    var n := c as int;
    || 0x9 <= n <= 0xD || n == 0x20 || n == 0x85 || n == 0xA0 || n == 0x1680 || 0x2000 <= n <= 0x200A
    || n == 0x2028 || n == 0x2029 || n == 0x202F || n == 0x205F || n == 0x3000
  }

  function TrimStart(s: string): (r: string)
    ensures |r| <= |s|
  {
    if s != [] && IsWhitespace(s[0]) then TrimStart(s[1..]) else s
  }

  function TrimEnd(s: string): (r: string)
    ensures |r| <= |s|
  {
    if s != [] && IsWhitespace(s[|s| - 1]) then TrimEnd(s[..|s| - 1]) else s
  }

  function Trim(s: string): string { TrimEnd(TrimStart(s)) }

  /** The code points with the property, one by one. */
  const WHITESPACE: set<int> := {
    0x9, 0xA, 0xB, 0xC, 0xD, 0x20, 0x85, 0xA0, 0x1680, 0x2000, 0x2001, 0x2002, 0x2003, 0x2004, 0x2005, 0x2006,
    0x2007, 0x2008, 0x2009, 0x200A, 0x2028, 0x2029, 0x202F, 0x205F, 0x3000}

  predicate Blank(s: string) { forall c :: c in s ==> c as int in WHITESPACE }

  /** Trimming takes whitespace off both ends and nothing else, until neither end is whitespace. */
  lemma TrimIs(s: string) returns (before: string, after: string)
    ensures s == before + Trim(s) + after && Blank(before) && Blank(after)
    ensures Trim(s) != [] ==>
              Trim(s)[0] as int !in WHITESPACE && Trim(s)[|Trim(s)| - 1] as int !in WHITESPACE
  {
    before := TrimStartIs(s);
    after := TrimEndIs(TrimStart(s));
    Associates(before, Trim(s), after);
    var t := TrimStart(s);
    if Trim(s) != [] { assert t[0] == (Trim(s) + after)[0] == Trim(s)[0]; }
  }

  lemma {:induction false} TrimStartIs(s: string) returns (before: string)
    ensures s == before + TrimStart(s) && Blank(before)
    ensures TrimStart(s) != [] ==> TrimStart(s)[0] as int !in WHITESPACE
  {
    before := [];
    if s != [] && IsWhitespace(s[0]) {
      var rest := TrimStartIs(s[1..]);
      before := [s[0]] + rest;
      Associates([s[0]], rest, TrimStart(s));
    }
  }

  lemma {:induction false} TrimEndIs(s: string) returns (after: string)
    ensures s == TrimEnd(s) + after && Blank(after)
    ensures TrimEnd(s) != [] ==> TrimEnd(s)[|TrimEnd(s)| - 1] as int !in WHITESPACE
  {
    after := [];
    if s != [] && IsWhitespace(s[|s| - 1]) {
      var rest := TrimEndIs(s[..|s| - 1]);
      after := rest + [s[|s| - 1]];
      Associates(TrimEnd(s), rest, [s[|s| - 1]]);
    }
  }

  /** What the quoted strings in `s` hold, reading from between two of them. */
  function Outside(s: string): (r: string)
    ensures |r| <= |s|
    decreases |s|
  {
    if s == [] then []
    else if s[0] == '"' then Inside(s[1..])
    else Outside(s[1..])
  }

  /** The same, reading from inside one of them; a backslash keeps the next character as it is. */
  function Inside(s: string): (r: string)
    ensures |r| <= |s|
    decreases |s|
  {
    if s == [] then []
    else if s[0] == '"' then Outside(s[1..])
    else if s[0] != '\\' then [s[0]] + Inside(s[1..])
    else if |s| == 1 then []
    else [s[1]] + Inside(s[2..])
  }

  function Unquoted(raw: string): string {
    var t := Trim(raw);
    if t == [] || t[0] != '"' then t else Outside(t)
  }

  lemma ReadStep(t: string, i: nat)
    requires i < |t|
    ensures Outside(t[i..]) == if t[i] == '"' then Inside(t[i + 1..]) else Outside(t[i + 1..])
    ensures t[i] == '"' ==> Inside(t[i..]) == Outside(t[i + 1..])
    ensures t[i] == '\\' ==> Inside(t[i..]) == if i + 1 == |t| then [] else [t[i + 1]] + Inside(t[i + 2..])
    ensures t[i] != '"' && t[i] != '\\' ==> Inside(t[i..]) == [t[i]] + Inside(t[i + 1..])
  {
    assert t[i..][1..] == t[i + 1..];
    if i + 1 < |t| { assert t[i..][2..] == t[i + 2..]; }
  }

  /** The inner loop: one quoted string, from behind its opening quote. */
  method ReadString(t: string, start: nat) returns (held: string, i: nat)
    requires start <= |t|
    ensures start <= i <= |t| && held + Outside(t[i..]) == Inside(t[start..])
  {
    held, i := [], start;
    while i < |t|
      invariant start <= i <= |t|
      invariant held + Inside(t[i..]) == Inside(t[start..])
    {
      ReadStep(t, i);
      var c := t[i];
      i := i + 1;
      if c == '\\' {
        if i < |t| {
          Associates(held, [t[i]], Inside(t[i + 1..]));
          held := held + [t[i]];
          i := i + 1;
        }
      } else if c == '"' {
        return;
      } else {
        Associates(held, [c], Inside(t[i..]));
        held := held + [c];
      }
    }
  }

  method UnquoteTxt(raw: string) returns (out: string)
    ensures out == Unquoted(raw)
  {
    var t := Trim(raw);
    if t == [] || t[0] != '"' {
      return t;
    }
    out := [];
    var i := 0;
    while i < |t|
      invariant 0 <= i <= |t|
      invariant out + Outside(t[i..]) == Outside(t)
    {
      ReadStep(t, i);
      var c := t[i];
      i := i + 1;
      if c == '"' {
        var held;
        held, i := ReadString(t, i);
        out := out + held;
      }
    }
  }

  // ----- Encoding -----

  function Utf8Length(c: char): nat {
    var n := c as int;
    if n < 0x80 then 1 else if n < 0x800 then 2 else if n < 0x10000 then 3 else 4
  }

  function ByteLength(s: string): nat {
    if s == [] then 0 else ByteLength(s[..|s| - 1]) + Utf8Length(s[|s| - 1])
  }

  function Scalars(s: string): seq<Datagrams.Scalar> {
    seq(|s|, i requires 0 <= i < |s| => s[i] as int)
  }

  lemma {:induction false} EncodeTextConcat(a: seq<Datagrams.Scalar>, b: seq<Datagrams.Scalar>)
    ensures Datagrams.EncodeText(a + b) == Datagrams.EncodeText(a) + Datagrams.EncodeText(b)
  {
    if a == [] {
      assert a + b == b;
    } else {
      EncodeTextConcat(a[1..], b);
      ConcatTail(a, b);
      Associates(Datagrams.EncodeScalar(a[0]), Datagrams.EncodeText(a[1..]), Datagrams.EncodeText(b));
    }
  }

  /** The length in bytes is that of the text in UTF-8. */
  lemma {:induction false} ByteLengthIs(s: string)
    ensures ByteLength(s) == |Datagrams.EncodeText(Scalars(s))|
  {
    if s != [] {
      var t, c := s[..|s| - 1], s[|s| - 1];
      ByteLengthIs(t);
      assert Scalars(s) == Scalars(t) + Scalars([c]);
      EncodeTextConcat(Scalars(t), Scalars([c]));
      assert Scalars([c])[1..] == [];
      assert |Datagrams.EncodeScalar(c as int)| == Utf8Length(c);
    }
  }

  /** The full chunks of a text, and what follows them. */
  function Split(s: string): (seq<string>, string) {
    if s == [] then ([], [])
    else
      var (full, current) := Split(s[..|s| - 1]);
      var c := s[|s| - 1];
      if ByteLength(current) + Utf8Length(c) > MAX_CHUNK_BYTES then (full + [current], [c]) else (full, current + [c])
  }

  function Chunks(s: string): seq<string> {
    var (full, current) := Split(s);
    if current != [] || full == [] then full + [current] else full
  }

  function Replace(s: string, c: char, replacement: string): string {
    if s == [] then [] else (if s[0] == c then replacement else [s[0]]) + Replace(s[1..], c, replacement)
  }

  function Escaped(s: string): string { Replace(Replace(s, '\\', "\\\\"), '"', "\\\"") }

  function Join(chunks: seq<string>): string {
    if chunks == [] then []
    else if |chunks| == 1 then "\"" + Escaped(chunks[0]) + "\""
    else "\"" + Escaped(chunks[0]) + "\"" + " " + Join(chunks[1..])
  }

  function Quoted(value: string): string { Join(Chunks(value)) }

  method QuoteTxt(value: string) returns (out: string)
    ensures out == Quoted(value)
    ensures Unquoted(out) == value
  {
    var chunks: seq<string>, current: string := [], [];
    for i := 0 to |value|
      invariant chunks == Split(value[..i]).0 && current == Split(value[..i]).1
    {
      var c := value[i];
      assert value[..i + 1][..i] == value[..i];
      if ByteLength(current) + Utf8Length(c) > MAX_CHUNK_BYTES {
        chunks, current := chunks + [current], [];
      }
      current := current + [c];
    }
    assert value[..|value|] == value;
    if current != [] || chunks == [] {
      chunks := chunks + [current];
    }
    UnquoteUndoesQuote(value);
    return Join(chunks);
  }

  // ----- What is promised of them -----

  function Concat(chunks: seq<string>): string {
    if chunks == [] then [] else Concat(chunks[..|chunks| - 1]) + chunks[|chunks| - 1]
  }

  ghost predicate Fits(s: string) { s != [] && ByteLength(s) <= MAX_CHUNK_BYTES }

  lemma ByteLengthPushed(s: string, c: char)
    ensures ByteLength(s + [c]) == ByteLength(s) + Utf8Length(c)
  {
    assert (s + [c])[..|s|] == s;
  }

  lemma ConcatPushed(chunks: seq<string>, x: string)
    ensures Concat(chunks + [x]) == Concat(chunks) + x
  {
    assert (chunks + [x])[..|chunks|] == chunks;
  }

  lemma {:induction false} SplitLosesNothing(s: string)
    ensures Concat(Split(s).0) + Split(s).1 == s
  {
    if s != [] {
      var t, c := s[..|s| - 1], s[|s| - 1];
      SplitLosesNothing(t);
      ConcatPushed(Split(t).0, Split(t).1);
      Associates(Concat(Split(t).0), Split(t).1, [c]);
      assert s == t + [c];
    }
  }

  lemma {:induction false} SplitFits(s: string)
    ensures (forall x :: x in Split(s).0 ==> Fits(x)) && (Fits(Split(s).1) || s == [])
  {
    if s != [] {
      SplitFits(s[..|s| - 1]);
      ByteLengthPushed(Split(s[..|s| - 1]).1, s[|s| - 1]);
      ByteLengthPushed([], s[|s| - 1]);
    }
  }

  /** The chunks are the value cut into pieces of 1 to 255 bytes, except that the empty value is one
      empty piece; no character is lost, moved or split. */
  lemma ChunksCutTheValue(value: string)
    ensures Concat(Chunks(value)) == value
    ensures Chunks(value) != []
    ensures if value == [] then Chunks(value) == [[]] else forall x :: x in Chunks(value) ==> Fits(x)
  {
    SplitLosesNothing(value);
    SplitFits(value);
    ConcatPushed(Split(value).0, Split(value).1);
  }

  lemma {:induction false} ReplaceConcat(a: string, b: string, c: char, r: string)
    ensures Replace(a + b, c, r) == Replace(a, c, r) + Replace(b, c, r)
  {
    if a == [] {
      assert a + b == b;
    } else {
      ReplaceConcat(a[1..], b, c, r);
      assert (a + b)[1..] == a[1..] + b;
      Associates(if a[0] == c then r else [a[0]], Replace(a[1..], c, r), Replace(b, c, r));
    }
  }

  function EscapedChar(c: char): string { if c == '"' || c == '\\' then ['\\', c] else [c] }

  function EscapedOnce(s: string): string {
    if s == [] then [] else EscapedChar(s[0]) + EscapedOnce(s[1..])
  }

  /** Replacing backslashes and then quotes treats every character once. */
  lemma {:induction false} EscapedIsOnePass(s: string)
    ensures Escaped(s) == EscapedOnce(s)
  {
    if s != [] {
      EscapedIsOnePass(s[1..]);
      var head := if s[0] == '\\' then "\\\\" else [s[0]];
      ReplaceConcat(head, Replace(s[1..], '\\', "\\\\"), '"', "\\\"");
      assert head[1..] == if s[0] == '\\' then "\\" else [];
      assert Replace(head, '"', "\\\"") == EscapedChar(s[0]);
    }
  }

  lemma InsideChar(c: char, tail: string)
    ensures Inside(EscapedChar(c) + tail) == [c] + Inside(tail)
  {
    var t := EscapedChar(c) + tail;
    assert t[|EscapedChar(c)|..] == tail;
  }

  /** Inside quotes, an escaped text reads back as itself. */
  lemma {:induction false} InsideEscaped(s: string, tail: string)
    ensures Inside(EscapedOnce(s) + tail) == s + Inside(tail)
  {
    if s == [] {
      assert EscapedOnce(s) + tail == tail;
    } else {
      InsideEscaped(s[1..], tail);
      Associates(EscapedChar(s[0]), EscapedOnce(s[1..]), tail);
      InsideChar(s[0], EscapedOnce(s[1..]) + tail);
      Associates([s[0]], s[1..], Inside(tail));
    }
  }

  lemma {:induction false} ConcatHead(chunks: seq<string>)
    requires chunks != []
    ensures Concat(chunks) == chunks[0] + Concat(chunks[1..])
  {
    var n := |chunks|;
    if n == 1 {
      assert chunks[..0] == [];
    } else {
      ConcatHead(chunks[..n - 1]);
      assert chunks[..n - 1][1..] == chunks[1..][..n - 2];
    }
  }

  lemma OutsideQuoted(chunk: string, rest: string)
    ensures Outside("\"" + Escaped(chunk) + "\"" + rest) == chunk + Outside(rest)
  {
    var t := "\"" + Escaped(chunk) + "\"" + rest;
    EscapedIsOnePass(chunk);
    InsideEscaped(chunk, "\"" + rest);
    assert ("\"" + rest)[1..] == rest;
    assert t[1..] == EscapedOnce(chunk) + ("\"" + rest);
  }

  /** Quoted strings side by side read back as one text, whatever they hold. */
  lemma {:induction false} OutsideJoin(chunks: seq<string>)
    requires chunks != []
    ensures Outside(Join(chunks)) == Concat(chunks)
    decreases |chunks|
  {
    ConcatHead(chunks);
    var first := "\"" + Escaped(chunks[0]) + "\"";
    if |chunks| == 1 {
      OutsideQuoted(chunks[0], []);
      assert first + [] == first;
    } else {
      OutsideJoin(chunks[1..]);
      var rest := " " + Join(chunks[1..]);
      OutsideQuoted(chunks[0], rest);
      assert rest[1..] == Join(chunks[1..]);
      assert Join(chunks) == first + rest;
    }
  }

  lemma {:induction false} JoinIsQuoted(chunks: seq<string>)
    requires chunks != []
    ensures var j := Join(chunks); |j| >= 2 && j[0] == '"' && j[|j| - 1] == '"'
    decreases |chunks|
  {
    if |chunks| > 1 { JoinIsQuoted(chunks[1..]); }
  }

  /** Every value, with any quotes, backslashes, spaces at its ends and characters of any width, comes
      back from its quoted form. */
  lemma UnquoteUndoesQuote(value: string)
    ensures Unquoted(Quoted(value)) == value
  {
    ChunksCutTheValue(value);
    OutsideJoin(Chunks(value));
    JoinIsQuoted(Chunks(value));
  }

  lemma QuoteIsInjective(v: string, w: string)
    requires Quoted(v) == Quoted(w)
    ensures v == w
  {
    UnquoteUndoesQuote(v);
    UnquoteUndoesQuote(w);
  }

  /** Unquoting leaves exactly those texts alone that are trimmed and do not begin with a quote: a value
      that is normalized a second time can change only if it begins with a quote or has outer space. */
  lemma UnquoteFixesExactly(value: string)
    ensures Unquoted(value) == value <==> Trim(value) == value && (value == [] || value[0] != '"')
  {
    var t := Trim(value);
    if t != [] && t[0] == '"' {
      assert |Outside(t)| == |Inside(t[1..])| < |t|;
    }
  }
}
