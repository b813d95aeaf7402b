/**
 * UTF-8 (RFC 3629, section 3) as Python encodes and decodes it, and the cleaning and truncation
 * of transcript text in src/aida_agent/transcripts.py.  A char is a Unicode scalar value.
 */
module Utf8 {
  const MAX_TEXT_BYTES: nat := 6000

  function Width(c: char): nat {
    var n := c as int;
    if n < 0x80 then 1 else if n < 0x800 then 2 else if n < 0x10000 then 3 else 4
  }

  function EncodeChar(c: char): (b: seq<int>)
    ensures |b| == Width(c)
  {
    var n := c as int;
    if n < 0x80 then [n]
    else if n < 0x800 then [0xC0 + n / 64, 0x80 + n % 64]
    else if n < 0x10000 then [0xE0 + n / 4096, 0x80 + n / 64 % 64, 0x80 + n % 64]
    else [0xF0 + n / 262144, 0x80 + n / 4096 % 64, 0x80 + n / 64 % 64, 0x80 + n % 64]
  }

  function Encode(s: string): seq<int> {
    if s == [] then [] else EncodeChar(s[0]) + Encode(s[1..])
  }

  predicate Continuation(b: int) { 0x80 <= b < 0xC0 }

  /** The second byte a three- or four-byte sequence may have after its first one. */
  predicate SecondByte(first: int, second: int) {
    && (if first == 0xE0 then 0xA0 else if first == 0xF0 then 0x90 else 0x80) <= second
    && second <= (if first == 0xED then 0x9F else if first == 0xF4 then 0x8F else 0xBF)
  }

  /** The start of a byte sequence: a character, or an ill-formed stretch to skip. */
  datatype Item = Good(c: char, width: nat) | Bad(width: nat)

  /** Python's decoder: a maximal ill-formed stretch is one error. */
  function First(b: seq<int>): (r: Item)
    requires b != []
    ensures 0 < r.width <= |b|
  {
    var f := b[0];
    if 0 <= f < 0x80 then Good(f as char, 1)
    else if 0xC2 <= f < 0xE0 then
      if |b| < 2 || !Continuation(b[1]) then Bad(1)
      else Good(((f - 0xC0) * 64 + (b[1] - 0x80)) as char, 2)
    else if 0xE0 <= f < 0xF0 then
      if |b| < 2 || !SecondByte(f, b[1]) then Bad(1)
      else if |b| < 3 || !Continuation(b[2]) then Bad(2)
      else Good(((f - 0xE0) * 4096 + (b[1] - 0x80) * 64 + (b[2] - 0x80)) as char, 3)
    else if 0xF0 <= f < 0xF5 then
      if |b| < 2 || !SecondByte(f, b[1]) then Bad(1)
      else if |b| < 3 || !Continuation(b[2]) then Bad(2)
      else if |b| < 4 || !Continuation(b[3]) then Bad(3)
      else Good(((f - 0xF0) * 262144 + (b[1] - 0x80) * 4096 + (b[2] - 0x80) * 64 + (b[3] - 0x80)) as char, 4)
    else Bad(1)
  }

  /** decode("utf-8", errors="ignore"). */
  function DecodeIgnore(b: seq<int>): string {
    if b == [] then ""
    else
      var item := First(b);
      (if item.Good? then [item.c] else "") + DecodeIgnore(b[item.width..])
  }

  function Take(b: seq<int>, n: nat): seq<int> { if |b| <= n then b else b[..n] }

  function Truncate(s: string): string { DecodeIgnore(Take(Encode(s), MAX_TEXT_BYTES)) }

  /** Removed before truncation: the control characters other than tab, newline and return. */
  predicate Control(c: char) {
    var n := c as int;
    n <= 0x08 || n == 0x0B || n == 0x0C || 0x0E <= n <= 0x1F
  }

  function Clean(s: string): (r: string)
    ensures forall c :: c in r <==> c in s && !Control(c)
  {
    if s == [] then "" else (if Control(s[0]) then "" else [s[0]]) + Clean(s[1..])
  }

  /** What an event carries of a text. */
  function Shorten(s: string): string { Truncate(Clean(s)) }

  // ----- one character -----

  /** The six-bit digits of a code point. */
  lemma Digits(n: int)
    requires 0 <= n
    ensures n == n / 4096 * 4096 + n / 64 % 64 * 64 + n % 64
    ensures n / 4096 == n / 262144 * 64 + n / 4096 % 64
  {
    assert n / 64 == n / 4096 * 64 + n / 64 % 64;
  }

  lemma FirstOfTriple(c: char, rest: seq<int>)
    requires 0x800 <= c as int < 0x10000
    ensures First(EncodeChar(c) + rest) == Good(c, 3)
  {
    var n := c as int;
    var x, y, z := n / 4096, n / 64 % 64, n % 64;
    Digits(n);
    var b := EncodeChar(c) + rest;
    assert b[0] == 0xE0 + x && b[1] == 0x80 + y && b[2] == 0x80 + z && |b| >= 3;
    assert SecondByte(b[0], b[1]);
    assert (b[0] - 0xE0) * 4096 + (b[1] - 0x80) * 64 + (b[2] - 0x80) == n;
  }

  lemma FirstOfQuadruple(c: char, rest: seq<int>)
    requires 0x10000 <= c as int
    ensures First(EncodeChar(c) + rest) == Good(c, 4)
  {
    var n := c as int;
    var x, y, z, t := n / 262144, n / 4096 % 64, n / 64 % 64, n % 64;
    Digits(n);
    var b := EncodeChar(c) + rest;
    assert b[0] == 0xF0 + x && b[1] == 0x80 + y && b[2] == 0x80 + z && b[3] == 0x80 + t && |b| >= 4;
    assert n == x * 262144 + y * 4096 + z * 64 + t;
    assert 0 <= y < 64 && 0 <= z < 64 && 0 <= t < 64 && 0 <= x <= 4;
    assert SecondByte(b[0], b[1]);
    assert (b[0] - 0xF0) * 262144 + (b[1] - 0x80) * 4096 + (b[2] - 0x80) * 64 + (b[3] - 0x80) == n;
  }

  lemma FirstOfEncoding(c: char, rest: seq<int>)
    ensures First(EncodeChar(c) + rest) == Good(c, Width(c))
  {
    var n := c as int;
    if 0x10000 <= n {
      FirstOfQuadruple(c, rest);
    } else if 0x800 <= n {
      FirstOfTriple(c, rest);
    } else if 0x80 <= n {
      var b := EncodeChar(c) + rest;
      assert b[0] == 0xC0 + n / 64 && b[1] == 0x80 + n % 64;
    }
  }

  /** A character cut short is one ill-formed stretch, to the end. */
  lemma FirstOfCut(c: char, n: nat)
    requires 0 < n < Width(c)
    ensures First(EncodeChar(c)[..n]) == Bad(n)
  {
    var v := c as int;
    var b := EncodeChar(c);
    assert b[..n][0] == b[0];
    if n > 1 { assert b[..n][1] == b[1]; }
    if n > 2 { assert b[..n][2] == b[2]; }
  }

  // ----- truncation -----

  /** How many characters of s fit in limit bytes. */
  function Fit(s: string, limit: nat): (k: nat)
    ensures k <= |s|
  {
    if s == [] || Width(s[0]) > limit then 0 else 1 + Fit(s[1..], limit - Width(s[0]))
  }

  lemma {:induction false} FitIsLongest(s: string, limit: nat, k: nat)
    requires k <= |s|
    ensures |Encode(s[..k])| <= limit <==> k <= Fit(s, limit)
  {
    if k > 0 {
      assert s[..k][1..] == s[1..][..k - 1];
      if Width(s[0]) <= limit {
        FitIsLongest(s[1..], limit - Width(s[0]), k - 1);
      }
    }
  }

  lemma {:induction false} DecodeTaken(s: string, limit: nat)
    ensures DecodeIgnore(Take(Encode(s), limit)) == s[..Fit(s, limit)]
  {
    var b := Take(Encode(s), limit);
    if s != [] {
      var w := Width(s[0]);
      var rest := Encode(s[1..]);
      assert Encode(s) == EncodeChar(s[0]) + rest;
      if w <= limit {
        assert b == EncodeChar(s[0]) + Take(rest, limit - w);
        FirstOfEncoding(s[0], Take(rest, limit - w));
        assert b[w..] == Take(rest, limit - w);
        DecodeTaken(s[1..], limit - w);
        assert s[..Fit(s, limit)] == [s[0]] + s[1..][..Fit(s[1..], limit - w)];
      } else if limit > 0 {
        assert b == EncodeChar(s[0])[..limit];
        FirstOfCut(s[0], limit);
        assert b[limit..] == [];
      }
    }
  }

  /** Cutting the bytes and ignoring what no longer decodes keeps the longest prefix that fits. */
  lemma TruncateIsLongestPrefix(s: string)
    ensures Truncate(s) <= s && |Encode(Truncate(s))| <= MAX_TEXT_BYTES
    ensures forall k: nat :: k <= |s| && |Encode(s[..k])| <= MAX_TEXT_BYTES ==> k <= |Truncate(s)|
  {
    DecodeTaken(s, MAX_TEXT_BYTES);
    FitIsLongest(s, MAX_TEXT_BYTES, Fit(s, MAX_TEXT_BYTES));
    forall k: nat | k <= |s| && |Encode(s[..k])| <= MAX_TEXT_BYTES ensures k <= |Truncate(s)| {
      FitIsLongest(s, MAX_TEXT_BYTES, k);
    }
  }

  /** A text that fits is not touched, so decoding undoes encoding. */
  lemma TruncateKeepsShort(s: string)
    requires |Encode(s)| <= MAX_TEXT_BYTES
    ensures Truncate(s) == s
  {
    TruncateIsLongestPrefix(s);
    assert s[..|s|] == s;
  }

  lemma {:induction false} CleanAppend(s: string, t: string)
    ensures Clean(s + t) == Clean(s) + Clean(t)
  {
    if s == [] {
      assert s + t == t;
    } else {
      assert (s + t)[1..] == s[1..] + t;
      CleanAppend(s[1..], t);
    }
  }

  lemma {:induction false} CleanClean(s: string)
    requires forall c :: c in s ==> !Control(c)
    ensures Clean(s) == s
  {
    if s != [] {
      CleanClean(s[1..]);
    }
  }

  lemma ShortenTwice(s: string)
    ensures Shorten(Shorten(s)) == Shorten(s)
  {
    TruncateIsLongestPrefix(Clean(s));
    CleanClean(Shorten(s));
    TruncateKeepsShort(Shorten(s));
  }

  /** A revision that extends the text extends, or keeps, what is shown of it. */
  lemma ShortenMonotone(s: string, t: string)
    requires s <= t
    ensures Shorten(s) <= Shorten(t)
  {
    assert t == s + t[|s|..];
    CleanAppend(s, t[|s|..]);
    var x, y := Clean(s), Clean(t);
    assert x <= y;
    TruncateIsLongestPrefix(x);
    TruncateIsLongestPrefix(y);
    assert Truncate(x) == y[..|Truncate(x)|];
  }

  // ----- the forms of section 3 -----

  /** One to four bytes by the range of the code point, whose bits they carry in order. */
  lemma EncodedForm(c: char)
    ensures
      var n, b := c as int, EncodeChar(c);
      if n <= 0x7F then b == [n]
      else if n <= 0x7FF then
        |b| == 2 && 0xC2 <= b[0] <= 0xDF && Continuation(b[1]) && n == (b[0] - 0xC0) * 64 + (b[1] - 0x80)
      else if n <= 0xFFFF then
        && |b| == 3 && 0xE0 <= b[0] <= 0xEF && Continuation(b[1]) && Continuation(b[2])
        && n == (b[0] - 0xE0) * 4096 + (b[1] - 0x80) * 64 + (b[2] - 0x80)
      else
        && |b| == 4 && 0xF0 <= b[0] <= 0xF4 && Continuation(b[1]) && Continuation(b[2]) && Continuation(b[3])
        && n == (b[0] - 0xF0) * 262144 + (b[1] - 0x80) * 4096 + (b[2] - 0x80) * 64 + (b[3] - 0x80)
  {
    Digits(c as int);
  }

  /** Decoding what was encoded gives the text. */
  lemma {:induction false} DecodeEncode(s: string)
    ensures DecodeIgnore(Encode(s)) == s
  {
    if s != [] {
      FirstOfEncoding(s[0], Encode(s[1..]));
      assert (EncodeChar(s[0]) + Encode(s[1..]))[Width(s[0])..] == Encode(s[1..]);
      DecodeEncode(s[1..]);
      assert s == [s[0]] + s[1..];
    }
  }
}
