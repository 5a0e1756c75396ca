/**
 * The handful of Python `str` operations the daemon relies on, written out
 * with Python's own semantics: `isspace`, `strip`, `startswith`, `in`,
 * `split`, `join`, `lower` (ASCII letters),
 * `str(int)` and `int(str)`.
 */
module Text {
  import opened Wrappers

  /** Python's `str.isspace()` for one code point (also what `\s` matches in `re`). */
  predicate IsSpace(c: char) {
    var n := c as int;
    (0x09 <= n <= 0x0D) || (0x1C <= n <= 0x20) || n == 0x85 || n == 0xA0 || n == 0x1680
    || (0x2000 <= n <= 0x200A) || n == 0x2028 || n == 0x2029 || n == 0x202F
    || n == 0x205F || n == 0x3000
  }

  /** `s.strip() == ""`: the string holds whitespace only. */
  predicate IsBlank(s: string) {
    forall i :: 0 <= i < |s| ==> IsSpace(s[i])
  }

  predicate HasNoSpace(s: string) {
    forall i :: 0 <= i < |s| ==> !IsSpace(s[i])
  }

  predicate IsDigit(c: char) { '0' <= c <= '9' }

  /** `s.lstrip()`: drops the leading whitespace, and only that. */
  function LStrip(s: string): (r: string)
    ensures |r| <= |s| && r == s[|s| - |r|..]
    ensures IsBlank(s[..|s| - |r|])
    ensures r != [] ==> !IsSpace(r[0])
    ensures r == [] <==> IsBlank(s)
  {
    if s != [] && IsSpace(s[0]) then
      var t := LStrip(s[1..]);
      LStripStep(s, t);
      t
    else s
  }

  /** One step of `LStrip`: a leading space joins the stripped prefix. */
  lemma LStripStep(s: string, t: string)
    requires s != [] && IsSpace(s[0])
    requires |t| <= |s| - 1 && t == s[1..][|s| - 1 - |t|..]
    requires IsBlank(s[1..][..|s| - 1 - |t|])
    requires t != [] ==> !IsSpace(t[0])
    requires t == [] <==> IsBlank(s[1..])
    ensures |t| <= |s| && t == s[|s| - |t|..]
    ensures IsBlank(s[..|s| - |t|])
    ensures t == [] <==> IsBlank(s)
  {
    assert s[1..][|s| - 1 - |t|..] == s[|s| - |t|..];
    assert s[..|s| - |t|] == [s[0]] + s[1..][..|s| - 1 - |t|];
    assert t != [] ==> t[0] == s[|s| - |t|];
  }

  /** `s.rstrip()`: drops the trailing whitespace, and only that. */
  function RStrip(s: string): (r: string)
    ensures |r| <= |s| && r == s[..|r|]
    ensures IsBlank(s[|r|..])
    ensures r != [] ==> !IsSpace(r[|r| - 1])
    ensures r == [] <==> IsBlank(s)
  {
    if s != [] && IsSpace(s[|s| - 1]) then RStrip(s[..|s| - 1]) else s
  }

  /** `s.strip()`. */
  function Strip(s: string): (r: string)
    ensures r == [] <==> IsBlank(s)
    ensures r != [] ==> !IsSpace(r[0]) && !IsSpace(r[|r| - 1])
  {
    RStrip(LStrip(s))
  }

  /** `r` is the slice of `s` from `i` on, with only whitespace before and after it. */
  predicate TrimmedAt(s: string, r: string, i: nat) {
    i + |r| <= |s| && s[i..i + |r|] == r && IsBlank(s[..i]) && IsBlank(s[i + |r|..])
  }

  /** `strip` keeps a slice of its input and drops only whitespace around it. */
  lemma StripSlice(s: string)
    ensures TrimmedAt(s, Strip(s), |s| - |LStrip(s)|)
  {
    var t := LStrip(s);
    var r := RStrip(t);
    TrimParts(s, t, r);
  }

  lemma TrimParts(s: string, t: string, r: string)
    requires |t| <= |s| && t == s[|s| - |t|..] && IsBlank(s[..|s| - |t|])
    requires |r| <= |t| && r == t[..|r|] && IsBlank(t[|r|..])
    ensures TrimmedAt(s, r, |s| - |t|)
  {
    var i := |s| - |t|;
    assert s[i..i + |r|] == t[..|r|];
    assert s[i + |r|..] == t[|r|..];
  }

  /** Whitespace around a text that neither starts nor ends with whitespace is exactly what `strip` removes. */
  lemma StripOf(a: string, m: string, b: string)
    requires IsBlank(a) && IsBlank(b)
    requires m != [] ==> !IsSpace(m[0]) && !IsSpace(m[|m| - 1])
    ensures Strip(a + m + b) == m
  {
    if m == [] {
      assert a + m + b == a + b;
      BlankAppend(a, b);
    } else {
      assert a + m + b == a + (m + b);
      LStripOf(a, m + b);
      RStripOf(m, b);
    }
  }

  lemma BlankAppend(a: string, b: string)
    requires IsBlank(a) && IsBlank(b)
    ensures IsBlank(a + b)
  {
    forall i | 0 <= i < |a + b| ensures IsSpace((a + b)[i]) {
      if i >= |a| { assert (a + b)[i] == b[i - |a|]; }
    }
  }

  lemma {:induction false} LStripOf(a: string, t: string)
    requires IsBlank(a) && t != [] && !IsSpace(t[0])
    ensures LStrip(a + t) == t
  {
    if a != [] {
      assert (a + t)[1..] == a[1..] + t;
      LStripOf(a[1..], t);
    }
  }

  lemma {:induction false} RStripOf(t: string, b: string)
    requires IsBlank(b) && t != [] && !IsSpace(t[|t| - 1])
    ensures RStrip(t + b) == t
  {
    if b != [] {
      assert (t + b)[..|t + b| - 1] == t + b[..|b| - 1];
      RStripOf(t, b[..|b| - 1]);
    }
  }

  /** `s.lstrip(c)` for a single character `c`. */
  function LStripChar(s: string, c: char): (r: string)
    ensures |r| <= |s| && r == s[|s| - |r|..]
    ensures forall i :: 0 <= i < |s| - |r| ==> s[i] == c
    ensures r != [] ==> r[0] != c
  {
    if s != [] && s[0] == c then LStripChar(s[1..], c) else s
  }

  /** `s.rstrip(c)` for a single character `c`. */
  function RStripChar(s: string, c: char): (r: string)
    ensures |r| <= |s| && r == s[..|r|]
    ensures forall i :: |r| <= i < |s| ==> s[i] == c
    ensures r != [] ==> r[|r| - 1] != c
  {
    if s != [] && s[|s| - 1] == c then RStripChar(s[..|s| - 1], c) else s
  }

  predicate StartsWith(s: string, p: string) {
    |p| <= |s| && s[..|p|] == p
  }

  predicate EndsWith(s: string, p: string) {
    |p| <= |s| && s[|s| - |p|..] == p
  }

  /** `sub in s`. */
  predicate Contains(s: string, sub: string)
    decreases |s|
  {
    StartsWith(s, sub) || (s != [] && Contains(s[1..], sub))
  }

  /** `str.lower()` on ASCII letters; other code points are kept. */
  function LowerChar(c: char): char {
    if 'A' <= c <= 'Z' then (c as int + 32) as char else c
  }

  function Lower(s: string): (r: string)
    ensures |r| == |s| && forall i :: 0 <= i < |s| ==> r[i] == LowerChar(s[i])
  {
    if s == [] then [] else [LowerChar(s[0])] + Lower(s[1..])
  }

  /** `sep.join(parts)`. */
  function Join(parts: seq<string>, sep: string): string {
    if parts == [] then ""
    else if |parts| == 1 then parts[0]
    else parts[0] + sep + Join(parts[1..], sep)
  }

  /** `s.find(c)` for a character, as an index when present. */
  function FindChar(s: string, c: char): (r: Option<nat>)
    ensures r.None? <==> c !in s
    ensures r.Some? ==> r.value < |s| && s[r.value] == c && c !in s[..r.value]
  {
    if s == [] then None
    else if s[0] == c then Some(0)
    else match FindChar(s[1..], c)
      case None => None
      case Some(k) => Some(k + 1)
  }

  /** `s.split(c, 1)`: the text before the first `c` and the text after it, if any. */
  function SplitOnce(s: string, c: char): (r: Option<(string, string)>)
    ensures r.None? <==> c !in s
    ensures r.Some? ==> s == r.value.0 + [c] + r.value.1 && c !in r.value.0
  {
    match FindChar(s, c)
    case None => None
    case Some(k) => Some((s[..k], s[k + 1..]))
  }

  lemma {:induction false} FindCharOf(a: string, c: char, b: string)
    requires c !in a
    ensures FindChar(a + [c] + b, c) == Some(|a|)
  {
    if a != [] {
      FindCharOf(a[1..], c, b);
      assert (a + [c] + b)[1..] == a[1..] + [c] + b;
    }
  }

  /** Splitting at the first `c` recovers the text before it and the text after it. */
  lemma {:induction false} SplitOnceOf(a: string, c: char, b: string)
    requires c !in a
    ensures SplitOnce(a + [c] + b, c) == Some((a, b))
  {
    var s := a + [c] + b;
    FindCharOf(a, c, b);
    assert s[..|a|] == a && s[|a| + 1..] == b;
  }

  /** Joining pieces free of `c` with `c` and splitting the result on `c` gives the pieces back. */
  lemma {:induction false} SplitJoin(parts: seq<string>, c: char)
    requires parts != []
    requires forall i :: 0 <= i < |parts| ==> c !in parts[i]
    ensures Split(Join(parts, [c]), c) == parts
  {
    if |parts| == 1 {
      assert Join(parts, [c]) == parts[0];
    } else {
      var rest := Join(parts[1..], [c]);
      assert Join(parts, [c]) == parts[0] + [c] + rest;
      SplitOnceOf(parts[0], c, rest);
      SplitJoin(parts[1..], c);
      assert parts == [parts[0]] + parts[1..];
    }
  }

  /** Splitting `a + [c] + b` on `c` splits `a` and `b` apart and puts the pieces side by side. */
  lemma {:induction false} SplitAround(a: string, c: char, b: string)
    ensures Split(a + [c] + b, c) == Split(a, c) + Split(b, c)
    decreases |a|
  {
    match SplitOnce(a, c)
    case None =>
      SplitOnceOf(a, c, b);
    case Some(p) =>
      var x, y := p.0, p.1;
      assert a + [c] + b == x + [c] + (y + [c] + b);
      SplitOnceOf(x, c, y + [c] + b);
      SplitAround(y, c, b);
  }

  /** Joining one more part adds the separator and that part at the end. */
  lemma {:induction false} JoinSnoc(parts: seq<string>, x: string, sep: string)
    requires parts != []
    ensures Join(parts + [x], sep) == Join(parts, sep) + sep + x
    decreases |parts|
  {
    if |parts| > 1 {
      assert (parts + [x])[1..] == parts[1..] + [x];
      JoinSnoc(parts[1..], x, sep);
    }
  }

  /** `s.split(c, 1)[0]`. */
  function BeforeFirst(s: string, c: char): (r: string)
    ensures c !in r && StartsWith(s, r)
    ensures c !in s ==> r == s
  {
    match SplitOnce(s, c)
    case None => s
    case Some(p) => p.0
  }

  /** `s.split(c)`: always at least one piece. */
  function Split(s: string, c: char): (r: seq<string>)
    ensures |r| >= 1
    ensures forall i :: 0 <= i < |r| ==> c !in r[i]
    decreases |s|
  {
    match SplitOnce(s, c)
    case None => [s]
    case Some(p) => [p.0] + Split(p.1, c)
  }

  /** `"".join(parts)`. */
  function Concat(parts: seq<string>): string {
    if parts == [] then [] else parts[0] + Concat(parts[1..])
  }

  /** The text with every whitespace character taken out. */
  function NonSpaces(s: string): (r: string)
    ensures HasNoSpace(r)
  {
    if s == [] then []
    else (if IsSpace(s[0]) then [] else [s[0]]) + NonSpaces(s[1..])
  }

  /** `s.split()`: the maximal runs of non-whitespace, which together hold every other character, in order. */
  function Words(s: string): (r: seq<string>)
    ensures forall i :: 0 <= i < |r| ==> r[i] != [] && HasNoSpace(r[i])
    decreases |s|
  {
    if s == [] then []
    else if IsSpace(s[0]) then Words(s[1..])
    else
      var k := WordEnd(s, 0);
      [s[..k]] + Words(s[k..])
  }

  /** The words, put back together, are the text without its whitespace: nothing else is dropped or reordered. */
  lemma {:induction false} WordsKeepNonSpaces(s: string)
    ensures Concat(Words(s)) == NonSpaces(s)
    decreases |s|
  {
    if s != [] {
      if IsSpace(s[0]) {
        WordsKeepNonSpaces(s[1..]);
      } else {
        var k := WordEnd(s, 0);
        NonSpacesOfWord(s, k);
        WordsKeepNonSpaces(s[k..]);
        assert Words(s) == [s[..k]] + Words(s[k..]);
      }
    }
  }

  /** A run without whitespace passes through `NonSpaces` whole. */
  lemma {:induction false} NonSpacesOfWord(s: string, k: nat)
    requires k <= |s| && forall j :: 0 <= j < k ==> !IsSpace(s[j])
    ensures NonSpaces(s) == s[..k] + NonSpaces(s[k..])
  {
    if k > 0 {
      NonSpacesOfWord(s[1..], k - 1);
      assert s[1..][..k - 1] == s[1..k] && s[1..][k - 1..] == s[k..];
      assert s[..k] == [s[0]] + s[1..k];
    }
  }

  /** A word with whitespace (or nothing) before it and after it is split off as the first word. */
  lemma {:induction false} WordsCons(b: string, w: string, rest: string)
    requires IsBlank(b) && w != [] && HasNoSpace(w)
    requires rest != [] ==> IsSpace(rest[0])
    ensures Words(b + w + rest) == [w] + Words(rest)
  {
    if b != [] {
      assert (b + w + rest)[1..] == b[1..] + w + rest;
      WordsCons(b[1..], w, rest);
    } else {
      var s := w + rest;
      assert b + w + rest == s;
      WordEndOf(s, 0, |w|);
      assert s[..|w|] == w && s[|w|..] == rest;
    }
  }

  lemma {:induction false} WordEndOf(s: string, i: nat, k: nat)
    requires i <= k <= |s| && (k < |s| ==> IsSpace(s[k]))
    requires forall j :: i <= j < k ==> !IsSpace(s[j])
    ensures WordEnd(s, i) == k
    decreases k - i
  {
    if i < k {
      WordEndOf(s, i + 1, k);
    }
  }

  /** Words joined by single spaces split back into those words. */
  lemma {:induction false} WordsOfJoin(ws: seq<string>)
    requires forall i :: 0 <= i < |ws| ==> ws[i] != [] && HasNoSpace(ws[i])
    ensures Words(Join(ws, " ")) == ws
  {
    if |ws| == 1 {
      WordsCons([], ws[0], []);
      assert [] + ws[0] + [] == ws[0];
    } else if |ws| > 1 {
      var rest := Join(ws[1..], " ");
      WordsOfJoin(ws[1..]);
      assert Join(ws, " ") == [] + ws[0] + (" " + rest);
      WordsCons([], ws[0], " " + rest);
      assert IsSpace(' ') && (" " + rest)[1..] == rest;
    }
  }

  /** End of the run of non-whitespace starting at `i`. */
  function WordEnd(s: string, i: nat): (k: nat)
    requires i <= |s|
    ensures i <= k <= |s| && (k < |s| ==> IsSpace(s[k]))
    ensures forall j :: i <= j < k ==> !IsSpace(s[j])
    decreases |s| - i
  {
    if i == |s| || IsSpace(s[i]) then i else WordEnd(s, i + 1)
  }

  /** The decimal digit for 0..9. */
  function DigitChar(d: nat): (c: char)
    requires d < 10
    ensures IsDigit(c)
  {
    ('0' as int + d) as char
  }

  function DigitValue(c: char): nat
    requires IsDigit(c)
  {
    c as int - '0' as int
  }

  /** `str(n)` for a natural number. */
  function NatToString(n: nat): (r: string)
    ensures r != [] && forall i :: 0 <= i < |r| ==> IsDigit(r[i])
  {
    if n < 10 then [DigitChar(n)] else NatToString(n / 10) + [DigitChar(n % 10)]
  }

  /** `str(i)`. */
  function IntToString(i: int): string {
    if i < 0 then "-" + NatToString(-i) else NatToString(i)
  }

  /** The value of digits and underscores, read left to right, underscores skipped. */
  function DigitsValue(s: string): nat
    requires forall i :: 0 <= i < |s| ==> IsDigit(s[i]) || s[i] == '_'
  {
    if s == [] then 0
    else if s[|s| - 1] == '_' then DigitsValue(s[..|s| - 1])
    else DigitsValue(s[..|s| - 1]) * 10 + DigitValue(s[|s| - 1])
  }

  /** What Python's `int()` accepts after the sign: digits, single underscores between digits. */
  predicate IsDigitGroup(s: string) {
    s != [] && IsDigit(s[0]) && IsDigit(s[|s| - 1])
    && (forall i :: 0 <= i < |s| ==> IsDigit(s[i]) || s[i] == '_')
    && (forall i :: 0 <= i < |s| - 1 ==> !(s[i] == '_' && s[i + 1] == '_'))
  }

  /**
   * Python's `int(s)` on a string in base 10: surrounding whitespace is
   * allowed, then an optional sign, then a digit group; anything else is a
   * `ValueError` (here `None`). Non-ASCII decimal digits are not modelled.
   */
  function ParseInt(s: string): (r: Option<int>)
    ensures r.Some? ==> !IsBlank(s)
    ensures r.Some? <==> IsSignedGroup(Strip(s))
  {
    ParseSigned(Strip(s))
  }

  /** An optional "+" or "-" followed by a digit group. */
  predicate IsSignedGroup(t: string) {
    IsDigitGroup(t) || (t != [] && (t[0] == '-' || t[0] == '+') && IsDigitGroup(t[1..]))
  }

  /** `int()` on text without surrounding whitespace. */
  function ParseSigned(t: string): (r: Option<int>)
    ensures r.Some? ==> t != []
    ensures r.Some? <==> IsSignedGroup(t)
  {
    if t == [] then None
    else
      var body := if t[0] == '-' || t[0] == '+' then t[1..] else t;
      if !IsDigitGroup(body) then None
      else
        var v: int := DigitsValue(body);
        Some(if t[0] == '-' then -v else v)
  }

  lemma {:induction false} NatToStringValue(n: nat)
    ensures DigitsValue(NatToString(n)) == n
  {
    var s := NatToString(n);
    if n >= 10 {
      NatToStringValue(n / 10);
      assert s[..|s| - 1] == NatToString(n / 10);
    }
  }

  /** An ASCII letter is not whitespace. */
  lemma LetterNotSpace(c: char)
    requires 'a' <= c <= 'z' || 'A' <= c <= 'Z'
    ensures !IsSpace(c)
  {
  }

  lemma StripKeeps(s: string)
    requires s != [] && !IsSpace(s[0]) && !IsSpace(s[|s| - 1])
    ensures Strip(s) == s
  {
    assert LStrip(s) == s;
  }

  lemma DigitsAreGroup(s: string)
    requires s != [] && forall i :: 0 <= i < |s| ==> IsDigit(s[i])
    ensures IsDigitGroup(s)
  {
  }

  /**
   * `int()` reads whitespace, an optional sign, a digit group and
   * whitespace as the group's value, negated after "-".
   */
  lemma ParseIntOf(a: string, sign: string, digits: string, b: string)
    requires IsBlank(a) && IsBlank(b) && IsDigitGroup(digits)
    requires sign == "" || sign == "-" || sign == "+"
    ensures ParseInt(a + sign + digits + b) == Some(if sign == "-" then -(DigitsValue(digits) as int) else DigitsValue(digits) as int)
  {
    var m := sign + digits;
    SignedEnds(sign, digits);
    assert a + sign + digits + b == a + m + b;
    StripOf(a, m, b);
    ParseSignedOf(sign, digits);
  }

  lemma SignedEnds(sign: string, digits: string)
    requires IsDigitGroup(digits)
    requires sign == "" || sign == "-" || sign == "+"
    ensures !IsSpace((sign + digits)[0]) && !IsSpace((sign + digits)[|sign + digits| - 1])
  {
    var m := sign + digits;
    assert m[|m| - 1] == digits[|digits| - 1];
    assert m[0] == if sign == "" then digits[0] else sign[0];
  }

  lemma ParseSignedOf(sign: string, digits: string)
    requires IsDigitGroup(digits)
    requires sign == "" || sign == "-" || sign == "+"
    ensures ParseSigned(sign + digits) == Some(if sign == "-" then -(DigitsValue(digits) as int) else DigitsValue(digits) as int)
  {
    var m := sign + digits;
    if sign == "" {
      assert m == digits;
    } else {
      SignedBody(sign[0], digits);
      assert m == [sign[0]] + digits;
    }
  }

  lemma SignedBody(c: char, digits: string)
    requires IsDigitGroup(digits) && (c == '-' || c == '+')
    ensures ParseSigned([c] + digits) == Some(if c == '-' then -(DigitsValue(digits) as int) else DigitsValue(digits) as int)
  {
    assert ([c] + digits)[1..] == digits;
  }

  /** `int(str(i)) == i`. */
  lemma {:induction false} ParseIntRoundTrip(i: int)
    ensures ParseInt(IntToString(i)) == Some(i)
  {
    var n: nat := if i < 0 then -i else i;
    var digits := NatToString(n);
    NatToStringValue(n);
    DigitsAreGroup(digits);
    var s := IntToString(i);
    if i < 0 {
      assert s[0] == '-' && s[1..] == digits;
      assert ParseSigned(s) == Some(i);
    } else {
      assert s == digits && IsDigit(s[0]);
      assert ParseSigned(s) == Some(i);
    }
    assert s[|s| - 1] == digits[|digits| - 1];
    StripKeeps(s);
  }
}
