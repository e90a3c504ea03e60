/** The Subject payload carried in a token's sub claim, and the JSON text
    that ObjectMapper writes for it and reads back. */
module SubjectJson {
  import opened Results

  /** Java's long. */
  type Long = x: int | -0x8000_0000_0000_0000 <= x <= 0x7FFF_FFFF_FFFF_FFFF

  /** The claim payload: who the token speaks for, and whether it is an
      access ("ATK") or a refresh ("RTK") token. */
  datatype Subject = Subject(id: Long, name: string, email: string, authority: string, tokenType: string)

  /** A value read from the front of a text, and the text after it. */
  datatype Parsed<+T> = Parsed(value: T, rest: string)

  // ---------------------------------------------------------------------------
  // Numbers

  predicate IsDigit(c: char) { '0' <= c <= '9' }

  function DigitChar(d: nat): (c: char)
    requires d < 10
    ensures IsDigit(c) && c as int - '0' as int == d
  {
    ('0' as int + d) as char
  }

  /** Decimal notation of n, without leading zeros. */
  function Decimal(n: nat): string
    decreases n
  {
    if n < 10 then [DigitChar(n)] else Decimal(n / 10) + [DigitChar(n % 10)]
  }

  /** Length of the run of digits at the front of s. */
  function DigitRun(s: string): (k: nat)
    ensures k <= |s|
  {
    if s != [] && IsDigit(s[0]) then 1 + DigitRun(s[1..]) else 0
  }

  /** The value of a decimal digit; other characters count as 0. */
  function DigitValue(c: char): (d: nat)
    ensures IsDigit(c) ==> d == c as int - '0' as int
  {
    if IsDigit(c) then c as int - '0' as int else 0
  }

  /** The number a run of digits denotes. */
  function DigitsValue(ds: string): nat
  {
    if ds == [] then 0 else 10 * DigitsValue(ds[..|ds| - 1]) + DigitValue(ds[|ds| - 1])
  }

  /** A long as Jackson writes it: an optional minus sign and its decimal digits. */
  function WriteLong(n: Long): string
  {
    if n < 0 then "-" + Decimal(-(n as int)) else Decimal(n)
  }

  /** Reads a run of digits with no leading zero as a non-negative number. */
  function ReadMagnitude(t: string): (r: Result<Parsed<nat>>)
    ensures r.Err? ==> r.error == MalformedSubject
  {
    var k := DigitRun(t);
    if k == 0 || (k > 1 && t[0] == '0') then Err(MalformedSubject)
    else
      Ok(Parsed(DigitsValue(t[..k]), t[k..]))
  }

  /** Reads a JSON integer into a long: an optional minus sign and a run of
      digits with no leading zero, whose value must fit in a long. */
  function ReadLong(s: string): (r: Result<Parsed<Long>>)
    ensures r.Err? ==> r.error == MalformedSubject
  {
    var negative := s != [] && s[0] == '-';
    var m :- ReadMagnitude(if negative then s[1..] else s);
    var v: int := if negative then -(m.value as int) else m.value;
    if -0x8000_0000_0000_0000 <= v <= 0x7FFF_FFFF_FFFF_FFFF then Ok(Parsed(v, m.rest))
    else Err(MalformedSubject)
  }

  lemma {:induction false} DecimalShape(n: nat)
    ensures |Decimal(n)| >= 1
    ensures forall i :: 0 <= i < |Decimal(n)| ==> IsDigit(Decimal(n)[i])
    ensures |Decimal(n)| > 1 ==> Decimal(n)[0] != '0'
    ensures DigitsValue(Decimal(n)) == n
    decreases n
  {
    if n >= 10 {
      DecimalShape(n / 10);
      var d := Decimal(n);
      assert d[..|d| - 1] == Decimal(n / 10);
      if n / 10 < 10 {
        assert Decimal(n / 10) == [DigitChar(n / 10)];
      }
      assert d[0] == Decimal(n / 10)[0];
    }
  }

  lemma {:induction false} DigitRunOf(ds: string, rest: string)
    requires forall i :: 0 <= i < |ds| ==> IsDigit(ds[i])
    requires rest == [] || !IsDigit(rest[0])
    ensures DigitRun(ds + rest) == |ds|
  {
    if ds != [] {
      assert (ds + rest)[1..] == ds[1..] + rest;
      DigitRunOf(ds[1..], rest);
    } else {
      assert ds + rest == rest;
    }
  }

  /** The digit run of Decimal(m) followed by a non-digit is read as m. */
  lemma DecimalRun(m: nat, rest: string)
    requires rest == [] || !IsDigit(rest[0])
    ensures ReadMagnitude(Decimal(m) + rest) == Ok(Parsed(m, rest))
    ensures (Decimal(m) + rest)[0] != '-'
  {
    var d := Decimal(m);
    DecimalShape(m);
    DigitRunOf(d, rest);
    assert (d + rest)[..|d|] == d;
    assert (d + rest)[|d|..] == rest;
    assert (d + rest)[0] == d[0];
  }

  /** Reading back what WriteLong wrote gives the same long, provided the
      text after it does not continue the digit run. */
  lemma LongRoundTrip(n: Long, rest: string)
    requires rest == [] || !IsDigit(rest[0])
    ensures ReadLong(WriteLong(n) + rest) == Ok(Parsed(n, rest))
  {
    if n < 0 {
      var m: nat := -(n as int);
      DecimalRun(m, rest);
      var s := WriteLong(n) + rest;
      assert s == ['-'] + (Decimal(m) + rest);
      assert s[1..] == Decimal(m) + rest;
    } else {
      DecimalRun(n, rest);
    }
  }

  // ---------------------------------------------------------------------------
  // Strings

  function HexDigit(d: nat): (c: char)
    requires d < 16
  {
    if d < 10 then ('0' as int + d) as char else ('A' as int + d - 10) as char
  }

  /** The value of a hexadecimal digit of either case, or -1. */
  function HexValue(c: char): (v: int)
    ensures -1 <= v < 16
  {
    if '0' <= c <= '9' then c as int - '0' as int
    else if 'A' <= c <= 'F' then c as int - 'A' as int + 10
    else if 'a' <= c <= 'f' then c as int - 'a' as int + 10
    else -1
  }

  /** The character a two-character escape \e stands for, if any. */
  function ShortEscape(e: char): Option<char>
  {
    if e == '"' then Some('"')
    else if e == '\\' then Some('\\')
    else if e == '/' then Some('/')
    else if e == 'b' then Some(8 as char)
    else if e == 't' then Some(9 as char)
    else if e == 'n' then Some(10 as char)
    else if e == 'f' then Some(12 as char)
    else if e == 'r' then Some(13 as char)
    else None
  }

  /** How Jackson writes one character inside a string literal: quote and
      backslash escaped, the five common control characters by their short
      escape, the other control characters as \u00XX, everything else as it is. */
  function Escape(c: char): string
  {
    if c == '"' then ['\\', '"']
    else if c == '\\' then ['\\', '\\']
    else if c as int == 8 then ['\\', 'b']
    else if c as int == 9 then ['\\', 't']
    else if c as int == 10 then ['\\', 'n']
    else if c as int == 12 then ['\\', 'f']
    else if c as int == 13 then ['\\', 'r']
    else if c as int < 32 then ['\\', 'u', '0', '0', HexDigit(c as int / 16), HexDigit(c as int % 16)]
    else [c]
  }

  function EscapeAll(s: string): string
  {
    if s == [] then [] else Escape(s[0]) + EscapeAll(s[1..])
  }

  function WriteString(s: string): string
  {
    ['"'] + EscapeAll(s) + ['"']
  }

  function Prepend(c: char, r: Result<Parsed<string>>): (p: Result<Parsed<string>>)
    ensures r.Err? ==> p == Err(r.error)
    ensures r.Ok? ==> p == Ok(Parsed([c] + r.value.value, r.value.rest))
  {
    var p :- r;
    Ok(Parsed([c] + p.value, p.rest))
  }

  /** Reads the body of a string literal up to and including its closing
      quote. Raw control characters, unknown escapes and surrogate escapes
      are refused. */
  function ReadChars(s: string): (r: Result<Parsed<string>>)
    ensures r.Err? ==> r.error == MalformedSubject
    ensures r.Ok? ==> |r.value.rest| < |s|
    decreases |s|
  {
    if s == [] then Err(MalformedSubject)
    else if s[0] == '"' then Ok(Parsed([], s[1..]))
    else if s[0] == '\\' then
      if |s| < 2 then Err(MalformedSubject)
      else if s[1] == 'u' then
        if |s| < 6 || HexValue(s[2]) < 0 || HexValue(s[3]) < 0 || HexValue(s[4]) < 0 || HexValue(s[5]) < 0 then
          Err(MalformedSubject)
        else
          var code := 4096 * HexValue(s[2]) + 256 * HexValue(s[3]) + 16 * HexValue(s[4]) + HexValue(s[5]);
          if 0xD800 <= code < 0xE000 then Err(MalformedSubject)
          else Prepend(code as char, ReadChars(s[6..]))
      else
        match ShortEscape(s[1])
        case Some(c) => Prepend(c, ReadChars(s[2..]))
        case None => Err(MalformedSubject)
    else if s[0] as int < 32 then Err(MalformedSubject)
    else Prepend(s[0], ReadChars(s[1..]))
  }

  function ReadString(s: string): (r: Result<Parsed<string>>)
    ensures r.Err? ==> r.error == MalformedSubject
  {
    if s != [] && s[0] == '"' then ReadChars(s[1..]) else Err(MalformedSubject)
  }

  lemma HexDigitValue(d: nat)
    requires d < 16
    ensures HexValue(HexDigit(d)) == d
  {
  }

  /** ReadChars consumes exactly the escape of one character and gives that character back. */
  lemma EscapeStep(c: char, tail: string)
    ensures ReadChars(Escape(c) + tail) == Prepend(c, ReadChars(tail))
  {
    var s := Escape(c) + tail;
    if c as int < 32 && c as int !in {8, 9, 10, 12, 13} {
      var hi, lo := c as int / 16, c as int % 16;
      HexDigitValue(hi);
      HexDigitValue(lo);
      assert s[6..] == tail;
      assert s[2] == '0' && s[3] == '0' && s[4] == HexDigit(hi) && s[5] == HexDigit(lo);
      assert (16 * hi + lo) as char == c;
    } else if |Escape(c)| == 2 {
      assert s[2..] == tail;
    } else {
      assert s[1..] == tail;
    }
  }

  lemma {:induction false} CharsRoundTrip(s: string, rest: string)
    ensures ReadChars(EscapeAll(s) + ['"'] + rest) == Ok(Parsed(s, rest))
  {
    if s == [] {
      assert EscapeAll(s) + ['"'] + rest == ['"'] + rest;
    } else {
      var tail := EscapeAll(s[1..]) + ['"'] + rest;
      assert EscapeAll(s) + ['"'] + rest == Escape(s[0]) + tail;
      EscapeStep(s[0], tail);
      CharsRoundTrip(s[1..], rest);
      assert [s[0]] + s[1..] == s;
    }
  }

  /** Reading back what WriteString wrote gives the same string, whatever follows it. */
  lemma StringRoundTrip(s: string, rest: string)
    ensures ReadString(WriteString(s) + rest) == Ok(Parsed(s, rest))
  {
    var t := WriteString(s) + rest;
    assert t[1..] == EscapeAll(s) + ['"'] + rest;
    CharsRoundTrip(s, rest);
  }

  // ---------------------------------------------------------------------------
  // The Subject object

  /** Consumes the literal lit at the front of s. */
  function Expect(s: string, lit: string): (r: Result<string>)
    ensures r.Err? ==> r.error == MalformedSubject
  {
    if |lit| <= |s| && s[..|lit|] == lit then Ok(s[|lit|..]) else Err(MalformedSubject)
  }

  lemma ExpectLiteral(lit: string, rest: string)
    ensures Expect(lit + rest, lit) == Ok(rest)
  {
    assert (lit + rest)[..|lit|] == lit;
    assert (lit + rest)[|lit|..] == rest;
  }

  /** ObjectMapper.writeValueAsString of a Subject. */
  function WriteSubject(s: Subject): (r: string)
    ensures |r| > 6 && r[..6] == "{\"id\":" && r[|r| - 1] == '}'
  {
    "{\"id\":" + (WriteLong(s.id) +
    (",\"name\":" + (WriteString(s.name) +
    (",\"email\":" + (WriteString(s.email) +
    (",\"authority\":" + (WriteString(s.authority) +
    (",\"type\":" + (WriteString(s.tokenType) + "}")))))))))
  }

  /** ObjectMapper.readValue of a Subject, for the field order WriteSubject
      uses. Text after the closing brace is ignored, as Jackson does by default. */
  function ReadSubject(t: string): (r: Result<Subject>)
    ensures r.Ok? ==> |t| > 6 && t[..6] == "{\"id\":"
    ensures r.Err? ==> r.error == MalformedSubject
  {
    var r0 :- Expect(t, "{\"id\":");
    var id :- ReadLong(r0);
    var r1 :- Expect(id.rest, ",\"name\":");
    var name :- ReadString(r1);
    var r2 :- Expect(name.rest, ",\"email\":");
    var email :- ReadString(r2);
    var r3 :- Expect(email.rest, ",\"authority\":");
    var authority :- ReadString(r3);
    var r4 :- Expect(authority.rest, ",\"type\":");
    var tokenType :- ReadString(r4);
    var _ :- Expect(tokenType.rest, "}");
    Ok(Subject(id.value, name.value, email.value, authority.value, tokenType.value))
  }

  /** Reading back the JSON written for a subject gives that subject. */
  lemma SubjectRoundTrip(s: Subject)
    ensures ReadSubject(WriteSubject(s)) == Ok(s)
  {
    var tail4 := WriteString(s.tokenType) + "}";
    var tail3 := WriteString(s.authority) + (",\"type\":" + tail4);
    var tail2 := WriteString(s.email) + (",\"authority\":" + tail3);
    var tail1 := WriteString(s.name) + (",\"email\":" + tail2);
    var tail0 := WriteLong(s.id) + (",\"name\":" + tail1);
    ExpectLiteral("{\"id\":", tail0);
    LongRoundTrip(s.id, ",\"name\":" + tail1);
    ExpectLiteral(",\"name\":", tail1);
    StringRoundTrip(s.name, ",\"email\":" + tail2);
    ExpectLiteral(",\"email\":", tail2);
    StringRoundTrip(s.email, ",\"authority\":" + tail3);
    ExpectLiteral(",\"authority\":", tail3);
    StringRoundTrip(s.authority, ",\"type\":" + tail4);
    ExpectLiteral(",\"type\":", tail4);
    StringRoundTrip(s.tokenType, "}");
    ExpectLiteral("}", []);
    assert "}" == "}" + [];
  }

  /** Distinct subjects are written as distinct texts. */
  lemma WriteSubjectInjective(a: Subject, b: Subject)
    requires a != b
    ensures WriteSubject(a) != WriteSubject(b)
  {
    SubjectRoundTrip(a);
    SubjectRoundTrip(b);
  }
}
