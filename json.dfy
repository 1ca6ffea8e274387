/**
 * The pointer file's content: `JSON.stringify` of the record built by
 * `writePointer`, a JSON object (section 4 of RFC 8259) whose members come
 * in insertion order — `path`, then `selection` with `text`, `startLine`,
 * `endLine`. Strings are quoted as section 7 of RFC 8259 allows and as
 * ECMAScript's `JSON.stringify` does it; line numbers are written in
 * decimal. A decoder for exactly this shape is the serialiser's partner:
 * decoding the content gives back the record.
 */
module Json {
  import opened Wrappers
  import opened Snapshots

  // ---------------------------------------------------------------------
  // Strings

  function HexDigit(d: nat): (c: char)
    requires d < 16
  {
    if d < 10 then ('0' as int + d) as char else ('a' as int + d - 10) as char
  }

  /**
   * One character of a string literal as `JSON.stringify` writes it: the
   * quote, the backslash and the control characters with a short form get
   * it, the other control characters below U+0020 become `\u00XX` with
   * lower-case hex digits, everything else is copied.
   */
  function EscapeChar(c: char): (r: string)
    ensures |r| >= 1 && r[0] != '"'
    ensures (c as int) < 0x20 || c == '"' || c == '\\' <==> r[0] == '\\'
  {
    if c == '"' then ['\\', '"']
    else if c == '\\' then ['\\', '\\']
    else if c as int == 0x08 then ['\\', 'b']
    else if c == '\t' then ['\\', 't']
    else if c == '\n' then ['\\', 'n']
    else if c as int == 0x0C then ['\\', 'f']
    else if c == '\r' then ['\\', 'r']
    else if (c as int) < 0x20 then ['\\', 'u', '0', '0', HexDigit(c as int / 16), HexDigit(c as int % 16)]
    else [c]
  }

  function Escape(s: string): (r: string)
  {
    if s == [] then [] else EscapeChar(s[0]) + Escape(s[1..])
  }

  // ---------------------------------------------------------------------
  // Numbers

  predicate IsDigit(c: char) {
    '0' <= c <= '9'
  }

  predicate AllDigits(d: string) {
    forall i :: 0 <= i < |d| ==> IsDigit(d[i])
  }

  /** Decimal notation of a non-negative integer, without leading zeros. */
  function Decimal(n: nat): (r: string)
  {
    if n < 10 then [('0' as int + n) as char]
    else Decimal(n / 10) + [('0' as int + n % 10) as char]
  }

  // ---------------------------------------------------------------------
  // The record

  // Each piece of text is followed by everything after it, so that the
  // concatenations nest to the right in the order the decoder reads them.

  /**
   * What follows the closing quote of the path: the end of the object, or
   * the `selection` member and then the end of both objects.
   */
  function AfterPath(sel: Selection): string {
    match sel
    case NoSelection => "}"
    case WithSelection(text, startLine, endLine) =>
      ",\"selection\":{\"text\":\"" + (Escape(text) + ("\"" +
      (",\"startLine\":" + (Decimal(startLine) +
      (",\"endLine\":" + (Decimal(endLine) + "}}"))))))
  }

  /** The pointer file's content for the record `s`. */
  function Serialise(s: Snapshot): string {
    "{\"path\":\"" + (Escape(s.path) + ("\"" + AfterPath(s.selection)))
  }

  // ---------------------------------------------------------------------
  // Decoding

  /** The value of a lower-case hex digit, the only kind `JSON.stringify` writes. */
  function HexValue(c: char): (r: Option<nat>)
    ensures r.Some? ==> r.value < 16 && HexDigit(r.value) == c
  {
    if '0' <= c <= '9' then Some(c as int - '0' as int)
    else if 'a' <= c <= 'f' then Some(c as int - 'a' as int + 10)
    else None
  }

  /** A control character that `EscapeChar` writes in the `\u00XX` form. */
  predicate HexEscaped(v: int) {
    0 <= v < 0x20 && v !in {0x08, 0x09, 0x0A, 0x0C, 0x0D}
  }

  /**
   * The four hex digits of a `\uXXXX` escape, accepted only in the form
   * `EscapeChar` gives them: `00` and two lower-case digits naming a
   * control character without a short escape.
   */
  function UnicodeEscape(h: string): Option<char>
    requires |h| == 4
  {
    if h[0] != '0' || h[1] != '0' then None
    else
      var hi :- HexValue(h[2]);
      var lo :- HexValue(h[3]);
      var v := hi * 16 + lo;
      if HexEscaped(v) then Some(v as char) else None
  }

  /**
   * One character of the body of a string literal and what follows it, in
   * exactly the form `EscapeChar` writes it: a raw quote (the end of the
   * literal), a raw backslash not starting an escape, a raw control
   * character and any escape `EscapeChar` does not produce are refused.
   */
  function ParseChar(t: string): (r: Option<(char, string)>)
    ensures r.Some? ==> |r.value.1| < |t|
  {
    if t == [] || t[0] == '"' || (t[0] as int) < 0x20 then None
    else if t[0] != '\\' then Some((t[0], t[1..]))
    else if |t| < 2 then None
    else if t[1] == '"' then Some(('"', t[2..]))
    else if t[1] == '\\' then Some(('\\', t[2..]))
    else if t[1] == 'b' then Some((0x08 as char, t[2..]))
    else if t[1] == 'f' then Some((0x0C as char, t[2..]))
    else if t[1] == 'n' then Some(('\n', t[2..]))
    else if t[1] == 'r' then Some(('\r', t[2..]))
    else if t[1] == 't' then Some(('\t', t[2..]))
    else if t[1] == 'u' && |t| >= 6 then
      var c :- UnicodeEscape(t[2..6]);
      Some((c, t[6..]))
    else None
  }

  /** The body of a string literal up to its closing quote, and what follows the quote. */
  function ParseStringBody(t: string): (r: Option<(string, string)>)
    decreases |t|
  {
    if t != [] && t[0] == '"' then Some(([], t[1..]))
    else
      var (c, rest) :- ParseChar(t);
      var (s, after) :- ParseStringBody(rest);
      Some(([c] + s, after))
  }

  /** Length of the run of digits that starts `t`. */
  function DigitRun(t: string): (k: nat)
    ensures k <= |t| && AllDigits(t[..k])
    ensures k < |t| ==> !IsDigit(t[k])
  {
    if t != [] && IsDigit(t[0]) then
      var k := 1 + DigitRun(t[1..]);
      assert t[..k] == [t[0]] + t[1..][..k - 1];
      k
    else 0
  }

  function DigitsValue(d: string): nat
    requires AllDigits(d)
  {
    if d == [] then 0
    else DigitsValue(d[..|d| - 1]) * 10 + (d[|d| - 1] as int - '0' as int)
  }

  /** A JSON integer without sign, fraction or exponent, and what follows it. */
  function ParseNat(t: string): Option<(nat, string)>
  {
    var k := DigitRun(t);
    if k == 0 || (k > 1 && t[0] == '0') then None
    else Some((DigitsValue(t[..k]), t[k..]))
  }

  /** `t` without the prefix `lit`, or None when `t` does not start with it. */
  function Literal(lit: string, t: string): (r: Option<string>)
    ensures r.Some? <==> lit <= t
    ensures r.Some? ==> t == lit + r.value
  {
    if lit <= t then Some(t[|lit|..]) else None
  }

  /** The `selection` member and the end of both objects. */
  function ParseSelectionMember(t: string): Option<Selection>
  {
    var t1 :- Literal(",\"selection\":{\"text\":\"", t);
    var (text, t2) :- ParseStringBody(t1);
    var t3 :- Literal(",\"startLine\":", t2);
    var (startLine, t4) :- ParseNat(t3);
    var t5 :- Literal(",\"endLine\":", t4);
    var (endLine, t6) :- ParseNat(t5);
    if t6 == "}}" then Some(WithSelection(text, startLine, endLine)) else None
  }

  /**
   * The record a pointer file's content describes, accepting only the
   * plugin's own layout: no white space, the members in the order `path`,
   * `selection`, `text`, `startLine`, `endLine`, strings escaped as
   * `EscapeChar` does it and numbers without leading zeros.
   */
  function Parse(t: string): Option<Snapshot>
  {
    var t1 :- Literal("{\"path\":\"", t);
    var (path, t2) :- ParseStringBody(t1);
    if t2 == "}" then Some(Snapshot(path, NoSelection))
    else
      var sel :- ParseSelectionMember(t2);
      Some(Snapshot(path, sel))
  }

  // ---------------------------------------------------------------------
  // Round trip

  lemma HexDigitValue(d: nat)
    requires d < 16
    ensures HexValue(HexDigit(d)) == Some(d)
  {
  }

  lemma ParseEscapedChar(c: char, rest: string)
    ensures ParseChar(EscapeChar(c) + rest) == Some((c, rest))
  {
    var t := EscapeChar(c) + rest;
    if (c as int) < 0x20 && c as int !in {0x08, 0x09, 0x0A, 0x0C, 0x0D} {
      var hi, lo := c as int / 16, c as int % 16;
      HexDigitValue(hi);
      HexDigitValue(lo);
      assert t[2..6] == ['0', '0', HexDigit(hi), HexDigit(lo)];
      assert t[6..] == rest;
    } else if c == '"' || c == '\\' || (c as int) < 0x20 {
      assert t[2..] == rest;
    } else {
      assert t[1..] == rest;
    }
  }

  /** A string body written by `Escape` and closed by a quote reads back as the string itself. */
  lemma {:induction false} ParseEscaped(s: string, rest: string)
    ensures ParseStringBody(Escape(s) + ("\"" + rest)) == Some((s, rest))
  {
    if s == [] {
      assert Escape(s) + ("\"" + rest) == "\"" + rest;
    } else {
      var tail := Escape(s[1..]) + ("\"" + rest);
      assert Escape(s) + ("\"" + rest) == EscapeChar(s[0]) + tail;
      ParseEscapedChar(s[0], tail);
      ParseEscaped(s[1..], rest);
      assert [s[0]] + s[1..] == s;
    }
  }

  lemma {:induction false} DecimalIsCanonical(n: nat)
    ensures |Decimal(n)| >= 1 && AllDigits(Decimal(n))
    ensures DigitsValue(Decimal(n)) == n
    ensures n >= 1 ==> Decimal(n)[0] != '0'
  {
    var d := Decimal(n);
    if n >= 10 {
      DecimalIsCanonical(n / 10);
      assert d[..|d| - 1] == Decimal(n / 10);
    }
  }

  lemma ParseDecimal(n: nat, rest: string)
    requires rest == [] || !IsDigit(rest[0])
    ensures ParseNat(Decimal(n) + rest) == Some((n, rest))
  {
    var d := Decimal(n);
    var t := d + rest;
    DecimalIsCanonical(n);
    assert t[..|d|] == d;
    assert t[|d|..] == rest;
  }

  lemma LiteralPrefix(lit: string, rest: string)
    ensures Literal(lit, lit + rest) == Some(rest)
  {
    assert (lit + rest)[|lit|..] == rest;
  }

  lemma ParseSelectionMemberWritten(sel: Selection)
    requires sel.WithSelection?
    ensures ParseSelectionMember(AfterPath(sel)) == Some(sel)
  {
    var t6 := "}}";
    var t5 := Decimal(sel.endLine) + t6;
    var t4 := ",\"endLine\":" + t5;
    var t3 := Decimal(sel.startLine) + t4;
    var t2 := ",\"startLine\":" + t3;
    var t1 := Escape(sel.text) + ("\"" + t2);
    LiteralPrefix(",\"selection\":{\"text\":\"", t1);
    ParseEscaped(sel.text, t2);
    LiteralPrefix(",\"startLine\":", t3);
    ParseDecimal(sel.startLine, t4);
    LiteralPrefix(",\"endLine\":", t5);
    ParseDecimal(sel.endLine, t6);
  }

  /** Decoding the pointer file's content gives back the record it was written from. */
  lemma ParseSerialise(s: Snapshot)
    ensures Parse(Serialise(s)) == Some(s)
  {
    var t2 := AfterPath(s.selection);
    var t1 := Escape(s.path) + ("\"" + t2);
    LiteralPrefix("{\"path\":\"", t1);
    ParseEscaped(s.path, t2);
    if s.selection.WithSelection? {
      ParseSelectionMemberWritten(s.selection);
      assert t2 != "}" by { assert t2[0] == ','; }
    }
  }

  // ---------------------------------------------------------------------
  // The decoder accepts nothing but what the serialiser writes

  lemma ParsedCharWasEscaped(t: string)
    requires ParseChar(t).Some?
    ensures var (c, rest) := ParseChar(t).value; t == EscapeChar(c) + rest
  {
    var (c, rest) := ParseChar(t).value;
    if t[0] != '\\' {
      assert t == [t[0]] + t[1..];
    } else if t[1] == 'u' {
      var hi, lo := HexValue(t[4]).value, HexValue(t[5]).value;
      assert c as int == hi * 16 + lo;
      assert t[..6] == ['\\', 'u', '0', '0', HexDigit(hi), HexDigit(lo)];
      assert t == t[..6] + t[6..];
    } else {
      assert t == t[..2] + t[2..];
    }
  }

  lemma {:induction false} ParsedStringWasEscaped(t: string)
    requires ParseStringBody(t).Some?
    ensures var (s, rest) := ParseStringBody(t).value; t == Escape(s) + ("\"" + rest)
    decreases |t|
  {
    if t != [] && t[0] == '"' {
      assert t == "\"" + t[1..];
    } else {
      var (c, rest) := ParseChar(t).value;
      ParsedCharWasEscaped(t);
      ParsedStringWasEscaped(rest);
      var (s, after) := ParseStringBody(rest).value;
      assert ParseStringBody(t).value == ([c] + s, after);
      assert ([c] + s)[0] == c && ([c] + s)[1..] == s;
    }
  }

  lemma {:induction false} LeadingDigitNonZero(d: string)
    requires AllDigits(d) && d != [] && d[0] != '0'
    ensures DigitsValue(d) >= 1
    decreases |d|
  {
    if |d| > 1 {
      LeadingDigitNonZero(d[..|d| - 1]);
    }
  }

  /** A run of digits without a leading zero is the decimal notation of its value. */
  lemma {:induction false} DecimalOfDigits(d: string)
    requires AllDigits(d) && d != [] && (|d| > 1 ==> d[0] != '0')
    ensures Decimal(DigitsValue(d)) == d
    decreases |d|
  {
    if |d| > 1 {
      var init := d[..|d| - 1];
      LeadingDigitNonZero(init);
      DecimalOfDigits(init);
      assert d == init + [d[|d| - 1]];
    }
  }

  lemma ParsedNatWasDecimal(t: string)
    requires ParseNat(t).Some?
    ensures var (n, rest) := ParseNat(t).value; t == Decimal(n) + rest
  {
    var k := DigitRun(t);
    DecimalOfDigits(t[..k]);
    assert t == t[..k] + t[k..];
  }

  lemma ParsedSelectionWasSerialised(t: string)
    requires ParseSelectionMember(t).Some?
    ensures AfterPath(ParseSelectionMember(t).value) == t
  {
    var t1 := Literal(",\"selection\":{\"text\":\"", t).value;
    ParsedStringWasEscaped(t1);
    var (text, t2) := ParseStringBody(t1).value;
    var t3 := Literal(",\"startLine\":", t2).value;
    ParsedNatWasDecimal(t3);
    var (startLine, t4) := ParseNat(t3).value;
    var t5 := Literal(",\"endLine\":", t4).value;
    ParsedNatWasDecimal(t5);
  }

  /**
   * Every content the decoder accepts is exactly what the serialiser
   * writes for the record it decodes to: together with `ParseSerialise`,
   * `Parse` is the inverse of `Serialise`.
   */
  lemma SerialiseParse(t: string)
    requires Parse(t).Some?
    ensures Serialise(Parse(t).value) == t
  {
    var t1 := Literal("{\"path\":\"", t).value;
    ParsedStringWasEscaped(t1);
    var (path, t2) := ParseStringBody(t1).value;
    if t2 != "}" {
      ParsedSelectionWasSerialised(t2);
    }
  }

  /** Different records give different file contents. */
  lemma SerialiseInjective(a: Snapshot, b: Snapshot)
    requires Serialise(a) == Serialise(b)
    ensures a == b
  {
    ParseSerialise(a);
    ParseSerialise(b);
  }

  /** A character that `JSON.stringify` copies into a string literal unchanged. */
  predicate Plain(c: char) {
    (c as int) >= 0x20 && c != '"' && c != '\\'
  }

  lemma {:induction false} EscapePlain(s: string)
    requires forall i :: 0 <= i < |s| ==> Plain(s[i])
    ensures Escape(s) == s
  {
    if s != [] {
      EscapePlain(s[1..]);
      assert [s[0]] + s[1..] == s;
    }
  }

  /**
   * A path made of plain characters is written verbatim: for example
   * "notes/today.md" with nothing selected gives `{"path":"notes/today.md"}`.
   */
  lemma PlainPathContent(p: string)
    requires forall i :: 0 <= i < |p| ==> Plain(p[i])
    ensures Serialise(Snapshot(p, NoSelection)) == "{\"path\":\"" + p + "\"}"
  {
    EscapePlain(p);
  }
}
