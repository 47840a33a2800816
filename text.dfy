/** The Python string operations the service relies on, on `seq<char>`:
    `str.isspace`/`str.strip`, `str.lower`/`str.upper` (ASCII letters only),
    `str.replace(c, "")`, `str.split(c)`, f-string formatting of integers,
    `int(s, 16)` and the fence-removing `re.sub(r'```json|```', '', s)`. */
module Text {
  import opened Wrappers

  // ---------------------------------------------------------------------
  // Whitespace and strip
  // ---------------------------------------------------------------------

  /** The characters Python's `str.isspace()` accepts; `strip()` and `int()`
      remove exactly these from both ends. */
  predicate IsSpace(c: char) {
    || c == ' ' || '\t' <= c <= '\r' || '\U{1c}' <= c <= '\U{1f}'
    || c == '\U{85}' || c == '\U{a0}' || c == '\U{1680}' || '\U{2000}' <= c <= '\U{200a}'
    || c == '\U{2028}' || c == '\U{2029}' || c == '\U{202f}' || c == '\U{205f}' || c == '\U{3000}'
  }

  predicate NoSpace(s: string) {
    forall i :: 0 <= i < |s| ==> !IsSpace(s[i])
  }

  function TrimStart(s: string): (r: string)
    ensures |r| <= |s| && r == s[|s| - |r|..]
    ensures r == [] || !IsSpace(r[0])
    ensures forall i :: 0 <= i < |s| - |r| ==> IsSpace(s[i])
  {
    if s != [] && IsSpace(s[0]) then TrimStart(s[1..]) else s
  }

  function TrimEnd(s: string): (r: string)
    ensures |r| <= |s| && r == s[..|r|]
    ensures r == [] || !IsSpace(r[|r| - 1])
    ensures forall i :: |r| <= i < |s| ==> IsSpace(s[i])
  {
    if s != [] && IsSpace(s[|s| - 1]) then TrimEnd(s[..|s| - 1]) else s
  }

  /** Python's `s.strip()`. */
  function Strip(s: string): string {
    TrimEnd(TrimStart(s))
  }

  /** `strip()` removes exactly the surrounding whitespace: a string padded
      by whitespace on both sides strips back to its core. */
  lemma {:induction false} StripPadded(pre: string, core: string, post: string)
    requires forall i :: 0 <= i < |pre| ==> IsSpace(pre[i])
    requires forall i :: 0 <= i < |post| ==> IsSpace(post[i])
    requires core == [] || (!IsSpace(core[0]) && !IsSpace(core[|core| - 1]))
    ensures Strip(pre + core + post) == core
  {
    assert pre + core + post == pre + (core + post);
    if core == [] {
      assert core + post == post;
      AllSpaceTrimStart(pre + post);
    } else {
      TrimStartPadded(pre, core + post);
      TrimEndPadded(core, post);
    }
  }

  lemma AllSpaceTrimStart(s: string)
    requires forall i :: 0 <= i < |s| ==> IsSpace(s[i])
    ensures TrimStart(s) == []
  {
  }

  lemma {:induction false} TrimStartPadded(pre: string, rest: string)
    requires forall i :: 0 <= i < |pre| ==> IsSpace(pre[i])
    requires rest == [] || !IsSpace(rest[0])
    ensures TrimStart(pre + rest) == rest
  {
    if pre != [] {
      assert (pre + rest)[1..] == pre[1..] + rest;
      TrimStartPadded(pre[1..], rest);
    }
  }

  lemma {:induction false} TrimEndPadded(rest: string, post: string)
    requires forall i :: 0 <= i < |post| ==> IsSpace(post[i])
    requires rest == [] || !IsSpace(rest[|rest| - 1])
    ensures TrimEnd(rest + post) == rest
  {
    if post != [] {
      assert (rest + post)[..|rest + post| - 1] == rest + post[..|post| - 1];
      TrimEndPadded(rest, post[..|post| - 1]);
    } else {
      assert rest + post == rest;
    }
  }

  /** `strip()` is idempotent. */
  lemma StripIdempotent(s: string)
    ensures Strip(Strip(s)) == Strip(s)
  {
    var t := TrimStart(s);
    var r := TrimEnd(t);
    if r != [] {
      assert r[0] == t[0];
      assert TrimStart(r) == r;
    }
  }

  // ---------------------------------------------------------------------
  // Case mapping (ASCII letters; other characters are left unchanged)
  // ---------------------------------------------------------------------

  function LowerChar(c: char): char {
    if 'A' <= c <= 'Z' then (c as int + 32) as char else c
  }

  function UpperChar(c: char): char {
    if 'a' <= c <= 'z' then (c as int - 32) as char else c
  }

  /** Python's `s.lower()` on ASCII letters. */
  function Lower(s: string): string {
    seq(|s|, i requires 0 <= i < |s| => LowerChar(s[i]))
  }

  /** Python's `s.upper()` on ASCII letters. */
  function Upper(s: string): string {
    seq(|s|, i requires 0 <= i < |s| => UpperChar(s[i]))
  }

  /** Lowering twice changes nothing more than lowering once. */
  lemma LowerIdempotent(s: string)
    ensures Lower(Lower(s)) == Lower(s)
  {
  }

  /** Lowering and stripping commute, because no letter is whitespace. */
  lemma {:induction false} TrimStartLower(s: string)
    ensures TrimStart(Lower(s)) == Lower(TrimStart(s))
  {
    if s != [] {
      var t := Lower(s);
      assert t[0] == LowerChar(s[0]) && t[1..] == Lower(s[1..]);
      LowerCharSpace(s[0]);
      TrimStartLower(s[1..]);
      if IsSpace(s[0]) {
        assert TrimStart(t) == TrimStart(t[1..]);
        assert TrimStart(s) == TrimStart(s[1..]);
      } else {
        assert TrimStart(t) == t;
        assert TrimStart(s) == s;
      }
    }
  }

  lemma {:induction false} TrimEndLower(s: string)
    ensures TrimEnd(Lower(s)) == Lower(TrimEnd(s))
  {
    if s != [] {
      var t := Lower(s);
      LowerCharSpace(s[|s| - 1]);
      assert t[..|s| - 1] == Lower(s[..|s| - 1]);
      TrimEndLower(s[..|s| - 1]);
      if IsSpace(s[|s| - 1]) {
        assert TrimEnd(t) == TrimEnd(t[..|s| - 1]);
      } else {
        assert TrimEnd(t) == t;
      }
    }
  }

  /** No letter is whitespace, so lowering keeps whitespace and non-whitespace apart. */
  lemma LowerCharSpace(c: char)
    ensures IsSpace(LowerChar(c)) == IsSpace(c)
  {
  }

  lemma StripLower(s: string)
    ensures Strip(Lower(s)) == Lower(Strip(s))
  {
    TrimStartLower(s);
    TrimEndLower(TrimStart(s));
  }

  // ---------------------------------------------------------------------
  // replace(c, ""), split(c), join
  // ---------------------------------------------------------------------

  /** Python's `s.replace(c, "")` for a one-character `c`. */
  function RemoveChar(s: string, c: char): (r: string)
    ensures c !in r
    ensures |r| <= |s|
    ensures c !in s ==> r == s
  {
    if s == [] then []
    else if s[0] == c then RemoveChar(s[1..], c)
    else [s[0]] + RemoveChar(s[1..], c)
  }

  /** How many times `c` occurs in `s`. */
  function Occurrences(s: string, c: char): nat {
    if s == [] then 0 else (if s[0] == c then 1 else 0) + Occurrences(s[1..], c)
  }

  /** Python's `s.split(c)` for a one-character separator: one more piece
      than there are separators, and no piece contains the separator. */
  function Split(s: string, sep: char): (parts: seq<string>)
    ensures |parts| == Occurrences(s, sep) + 1
    ensures forall i :: 0 <= i < |parts| ==> sep !in parts[i]
  {
    if s == [] then [[]]
    else
      var rest := Split(s[1..], sep);
      if s[0] == sep then [[]] + rest else [[s[0]] + rest[0]] + rest[1..]
  }

  /** Python's `sep.join(parts)`. */
  function Join(parts: seq<string>, sep: char): string
    requires |parts| >= 1
  {
    if |parts| == 1 then parts[0] else parts[0] + [sep] + Join(parts[1..], sep)
  }

  /** Joining the pieces of a split gives back the string. */
  lemma {:induction false} JoinSplit(s: string, sep: char)
    ensures Join(Split(s, sep), sep) == s
  {
    if s != [] {
      var rest := Split(s[1..], sep);
      JoinSplit(s[1..], sep);
      if s[0] == sep {
        assert Split(s, sep)[1..] == rest;
      } else {
        var parts := Split(s, sep);
        if |rest| == 1 {
          assert parts == [[s[0]] + rest[0]];
        } else {
          assert parts[1..] == rest[1..];
          assert Join(rest, sep) == rest[0] + [sep] + Join(rest[1..], sep);
        }
      }
    }
  }

  /** A string without the separator splits into itself alone. */
  lemma {:induction false} SplitNoSeparator(s: string, sep: char)
    requires sep !in s
    ensures Split(s, sep) == [s]
  {
    if s != [] {
      assert sep !in s[1..];
      SplitNoSeparator(s[1..], sep);
      assert s[0] != sep;
      assert [s[0]] + s[1..] == s;
    }
  }

  /** Splitting around one separator splits both sides independently. */
  lemma {:induction false} SplitAround(a: string, sep: char, b: string)
    ensures Split(a + [sep] + b, sep) == Split(a, sep) + Split(b, sep)
  {
    if a == [] {
      assert (a + [sep] + b)[1..] == b;
    } else {
      assert (a + [sep] + b)[1..] == a[1..] + [sep] + b;
      SplitAround(a[1..], sep, b);
    }
  }

  // ---------------------------------------------------------------------
  // Decimal formatting of integers (f"{n}")
  // ---------------------------------------------------------------------

  predicate IsDigit(c: char) {
    '0' <= c <= '9'
  }

  function DigitChar(d: nat): (c: char)
    requires d < 10
    ensures IsDigit(c)
  {
    ('0' as int + d) as char
  }

  /** Python's `str(n)` for a non-negative integer. */
  function NatToString(n: nat): (s: string)
    ensures |s| >= 1
    ensures forall i :: 0 <= i < |s| ==> IsDigit(s[i])
  {
    if n < 10 then [DigitChar(n)] else NatToString(n / 10) + [DigitChar(n % 10)]
  }

  function DigitValue(c: char): (d: nat)
    requires IsDigit(c)
    ensures d < 10
  {
    c as int - '0' as int
  }

  /** The value of a string of decimal digits, read most significant first. */
  function DecimalValue(s: string): nat
    requires forall i :: 0 <= i < |s| ==> IsDigit(s[i])
  {
    if s == [] then 0
    else
      assert IsDigit(s[|s| - 1]);
      DecimalValue(s[..|s| - 1]) * 10 + DigitValue(s[|s| - 1])
  }

  /** Formatting an integer in decimal loses nothing: reading it back gives
      the integer. */
  lemma {:induction false} DecimalRoundTrip(n: nat)
    ensures DecimalValue(NatToString(n)) == n
  {
    if n >= 10 {
      DecimalRoundTrip(n / 10);
      var s := NatToString(n);
      assert s[..|s| - 1] == NatToString(n / 10);
    }
  }

  // ---------------------------------------------------------------------
  // int(s, 16)
  // ---------------------------------------------------------------------

  predicate IsHexDigit(c: char) {
    '0' <= c <= '9' || 'a' <= c <= 'f' || 'A' <= c <= 'F'
  }

  function HexDigitValue(c: char): (d: nat)
    requires IsHexDigit(c)
    ensures d < 16
  {
    if '0' <= c <= '9' then c as int - '0' as int
    else if 'a' <= c <= 'f' then c as int - 'a' as int + 10
    else c as int - 'A' as int + 10
  }

  predicate AllHex(s: string) {
    forall i :: 0 <= i < |s| ==> IsHexDigit(s[i])
  }

  /** The value of a string of hexadecimal digits, most significant first. */
  function HexValue(s: string): nat
    requires AllHex(s)
  {
    if s == [] then 0
    else HexValue(s[..|s| - 1]) * 16 + HexDigitValue(s[|s| - 1])
  }

  /** The digit body Python's `int(_, 16)` accepts: hexadecimal digits with
      single underscores between them. */
  predicate UnderscoredHex(s: string) {
    && |s| >= 1
    && IsHexDigit(s[0])
    && IsHexDigit(s[|s| - 1])
    && (forall i :: 0 <= i < |s| ==> IsHexDigit(s[i]) || s[i] == '_')
    && (forall i :: 0 <= i < |s| - 1 ==> !(s[i] == '_' && s[i + 1] == '_'))
  }

  lemma RemoveUnderscoresHex(s: string)
    requires forall i :: 0 <= i < |s| ==> IsHexDigit(s[i]) || s[i] == '_'
    ensures AllHex(RemoveChar(s, '_'))
  {
    if s != [] {
      RemoveUnderscoresHex(s[1..]);
    }
  }

  /** An optional leading sign: whether it was a minus, and what follows it. */
  function SplitSign(t: string): (bool, string) {
    if |t| > 0 && (t[0] == '-' || t[0] == '+') then (t[0] == '-', t[1..]) else (false, t)
  }

  /** An optional `0x`/`0X` prefix, which may be followed by one underscore. */
  function DropHexPrefix(u: string): string {
    if |u| >= 2 && u[0] == '0' && (u[1] == 'x' || u[1] == 'X') then
      if |u| > 2 && u[2] == '_' then u[3..] else u[2..]
    else u
  }

  /** Python's `int(s, 16)`: surrounding whitespace, an optional sign, an
      optional `0x`/`0X` prefix and underscore-separated digits; anything
      else raises ValueError, modelled as None. */
  function ParseHexInt(s: string): Option<int> {
    var (negative, unsigned) := SplitSign(Strip(s));
    var body := DropHexPrefix(unsigned);
    if !UnderscoredHex(body) then None
    else
      RemoveUnderscoresHex(body);
      var magnitude: int := HexValue(RemoveChar(body, '_'));
      Some(if negative then -magnitude else magnitude)
  }

  function Pow16(k: nat): (p: nat)
    ensures p >= 1
  {
    if k == 0 then 1 else 16 * Pow16(k - 1)
  }

  function HexDigitChar(d: nat): (c: char)
    requires d < 16
    ensures IsHexDigit(c) && c != 'x' && c != 'X' && HexDigitValue(c) == d
  {
    if d < 10 then ('0' as int + d) as char else ('a' as int + d - 10) as char
  }

  /** `n` written as exactly `width` lower-case hexadecimal digits (with
      leading zeros), as in the hexadecimal form of a MongoDB ObjectId. */
  function HexString(n: nat, width: nat): (s: string)
    ensures |s| == width && AllHex(s)
    ensures forall i :: 0 <= i < |s| ==> s[i] != 'x' && s[i] != 'X' && s[i] != '_'
  {
    if width == 0 then [] else HexString(n / 16, width - 1) + [HexDigitChar(n % 16)]
  }

  /** Reading back a fixed-width hexadecimal rendering gives the number,
      when it fits in that width. */
  lemma {:induction false} HexRoundTrip(n: nat, width: nat)
    requires n < Pow16(width)
    ensures HexValue(HexString(n, width)) == n
  {
    if width > 0 {
      HexRoundTrip(n / 16, width - 1);
      var s := HexString(n, width);
      assert s[..|s| - 1] == HexString(n / 16, width - 1);
    }
  }

  predicate PlainHex(s: string) {
    && |s| >= 1 && AllHex(s)
    && forall i :: 0 <= i < |s| ==> s[i] != 'x' && s[i] != 'X' && s[i] != '_'
  }

  /** `int(s, 16)` on a plain run of hexadecimal digits is their value. */
  lemma ParsePlainHex(s: string)
    requires PlainHex(s)
    ensures ParseHexInt(s) == Some(HexValue(s))
  {
    PlainHexIsStripped(s);
    PlainHexShape(s);
    ParseStrippedDigits(s);
  }

  lemma PlainHexIsStripped(s: string)
    requires PlainHex(s)
    ensures Strip(s) == s
  {
    assert IsHexDigit(s[0]) && IsHexDigit(s[|s| - 1]);
    StripUnpadded(s);
  }

  /** A string that neither starts nor ends with whitespace strips to itself. */
  lemma StripUnpadded(t: string)
    requires t != [] && !IsSpace(t[0]) && !IsSpace(t[|t| - 1])
    ensures Strip(t) == t
  {
    assert TrimStart(t) == t;
    assert TrimEnd(t) == t;
  }

  lemma PlainHexShape(s: string)
    requires PlainHex(s)
    ensures SplitSign(s) == (false, s) && DropHexPrefix(s) == s
    ensures UnderscoredHex(s) && RemoveChar(s, '_') == s
  {
    assert IsHexDigit(s[0]);
    assert '_' !in s;
  }

  /** `int("-" + s, 16)` on a plain run of hexadecimal digits `s` is minus
      their value. */
  lemma ParseNegativePlainHex(s: string)
    requires PlainHex(s)
    ensures ParseHexInt("-" + s) == Some(-(HexValue(s) as int))
  {
    var t := "-" + s;
    NegativePlainHexIsStripped(s);
    PlainHexShape(s);
    ParseStrippedNegative(t, s);
  }

  lemma NegativePlainHexIsStripped(s: string)
    requires PlainHex(s)
    ensures Strip("-" + s) == "-" + s
    ensures SplitSign("-" + s) == (true, s)
  {
    var t := "-" + s;
    assert IsHexDigit(s[|s| - 1]);
    assert t[0] == '-' && t[|t| - 1] == s[|s| - 1];
    StripUnpadded(t);
    assert t[1..] == s;
  }

  lemma ParseStrippedNegative(t: string, s: string)
    requires Strip(t) == t && SplitSign(t) == (true, s) && DropHexPrefix(s) == s
    requires UnderscoredHex(s) && RemoveChar(s, '_') == s
    ensures ParseHexInt(t) == Some(-(HexValue(s) as int))
  {
  }

  lemma ParseStrippedDigits(s: string)
    requires Strip(s) == s && SplitSign(s) == (false, s) && DropHexPrefix(s) == s
    requires UnderscoredHex(s) && RemoveChar(s, '_') == s
    ensures ParseHexInt(s) == Some(HexValue(s))
  {
  }

  // ---------------------------------------------------------------------
  // re.sub(r'```json|```', '', s)
  // ---------------------------------------------------------------------

  const JsonFence: string := "```json"
  const Fence: string := "```"

  /** Python's `re.sub(r'```json|```', '', s)`: scanning left to right, at
      each position a "```json" is removed if it starts there, otherwise a
      "```" is, otherwise the character is kept. */
  function RemoveFences(s: string): (r: string)
    ensures |r| <= |s|
    decreases |s|
  {
    if |s| >= 7 && s[..7] == JsonFence then RemoveFences(s[7..])
    else if |s| >= 3 && s[..3] == Fence then RemoveFences(s[3..])
    else if s == [] then []
    else [s[0]] + RemoveFences(s[1..])
  }

  /** Text without backticks passes through untouched, whatever follows. */
  lemma {:induction false} RemoveFencesKeepsPlainPrefix(x: string, rest: string)
    requires '`' !in x
    ensures RemoveFences(x + rest) == x + RemoveFences(rest)
  {
    if x != [] {
      var s := x + rest;
      assert s[0] == x[0] != '`';
      assert s[1..] == x[1..] + rest;
      RemoveFencesPlainStep(s);
      RemoveFencesKeepsPlainPrefix(x[1..], rest);
      assert [x[0]] + x[1..] == x;
    } else {
      assert x + rest == rest;
    }
  }

  /** A character other than a backtick starts no fence and is kept. */
  lemma RemoveFencesPlainStep(s: string)
    requires s != [] && s[0] != '`'
    ensures RemoveFences(s) == [s[0]] + RemoveFences(s[1..])
  {
    assert JsonFence[0] == '`' && Fence[0] == '`';
    if |s| >= 7 {
      assert s[..7][0] == s[0];
    }
    if |s| >= 3 {
      assert s[..3][0] == s[0];
    }
  }

  lemma DropJsonFence(x: string)
    ensures RemoveFences(JsonFence + x) == RemoveFences(x)
  {
    assert (JsonFence + x)[..7] == JsonFence;
    assert (JsonFence + x)[7..] == x;
  }

  lemma DropBareFence(x: string)
    requires !(|x| >= 4 && x[..4] == "json")
    ensures RemoveFences(Fence + x) == RemoveFences(x)
  {
    BareFenceShape(x);
    DropBareFenceShaped(x);
  }

  lemma BareFenceShape(x: string)
    requires !(|x| >= 4 && x[..4] == "json")
    ensures (Fence + x)[..3] == Fence && (Fence + x)[3..] == x
    ensures !(|Fence + x| >= 7 && (Fence + x)[..7] == JsonFence)
  {
    if |Fence + x| >= 7 {
      assert (Fence + x)[3..7] == x[..4];
      assert JsonFence[3..7] == "json";
    }
  }

  lemma DropBareFenceShaped(x: string)
    requires (Fence + x)[..3] == Fence && (Fence + x)[3..] == x
    requires !(|Fence + x| >= 7 && (Fence + x)[..7] == JsonFence)
    ensures RemoveFences(Fence + x) == RemoveFences(x)
  {
  }

  /** A reply wrapped in a "```json" ... "```" fence is unwrapped to its
      body; so is one wrapped in a bare "```" ... "```" fence, unless the
      body itself begins with "json", which is then read as part of the
      longer fence. */
  lemma UnwrapFence(body: string)
    requires '`' !in body
    ensures RemoveFences(JsonFence + body + Fence) == body
    ensures !(|body| >= 4 && body[..4] == "json") ==> RemoveFences(Fence + body + Fence) == body
    ensures |body| >= 4 && body[..4] == "json" ==> RemoveFences(Fence + body + Fence) == body[4..]
  {
    UnwrapJsonFence(body);
    if |body| >= 4 && body[..4] == "json" {
      UnwrapBareFenceJson(body);
    } else {
      UnwrapBareFence(body);
    }
  }

  lemma ClosingFence()
    ensures RemoveFences(Fence) == []
  {
    DropBareFence([]);
    assert Fence + [] == Fence;
  }

  lemma UnwrapJsonFence(body: string)
    requires '`' !in body
    ensures RemoveFences(JsonFence + body + Fence) == body
  {
    assert JsonFence + body + Fence == JsonFence + (body + Fence);
    DropJsonFence(body + Fence);
    RemoveFencesKeepsPlainPrefix(body, Fence);
    ClosingFence();
  }

  lemma UnwrapBareFence(body: string)
    requires '`' !in body
    requires !(|body| >= 4 && body[..4] == "json")
    ensures RemoveFences(Fence + body + Fence) == body
  {
    assert Fence + body + Fence == Fence + (body + Fence);
    if |body + Fence| >= 4 {
      assert |body| < 4 || (body + Fence)[..4] == body[..4];
      if |body| < 4 {
        assert (body + Fence)[..4][|body|] == '`';
        assert "json"[|body|] != '`';
      }
    }
    DropBareFence(body + Fence);
    RemoveFencesKeepsPlainPrefix(body, Fence);
    ClosingFence();
  }

  lemma UnwrapBareFenceJson(body: string)
    requires '`' !in body
    requires |body| >= 4 && body[..4] == "json"
    ensures RemoveFences(Fence + body + Fence) == body[4..]
  {
    var b := body[4..];
    BareFenceAroundJson(body);
    DropJsonFence(b + Fence);
    assert '`' !in b by {
      assert forall i :: 0 <= i < |b| ==> b[i] == body[i + 4];
    }
    RemoveFencesKeepsPlainPrefix(b, Fence);
    ClosingFence();
  }

  /** A bare fence followed by "json" reads as the longer fence. */
  lemma BareFenceAroundJson(body: string)
    requires |body| >= 4 && body[..4] == "json"
    ensures Fence + body + Fence == JsonFence + (body[4..] + Fence)
  {
    var b := body[4..];
    assert body == "json" + b;
    assert Fence + "json" == JsonFence;
    calc {
      Fence + body + Fence;
      Fence + ("json" + b) + Fence;
      (Fence + "json") + (b + Fence);
      JsonFence + (b + Fence);
    }
  }
}
