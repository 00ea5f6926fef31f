/**
 * The parts of Python's `str` the settings and the authentication
 * dependency rely on: `str.split(sep)`, `str.strip()`, `str(n)` and
 * `int(s)` for integers written in decimal.
 */
module PyText {
  import opened PyValues

  /** `c.isspace()`: the characters Python treats as whitespace. */
  predicate IsSpace(c: char) {
    var n := c as int;
    || n == 0x20 || 0x09 <= n <= 0x0d || 0x1c <= n <= 0x1f || n == 0x85 || n == 0xa0
    || n == 0x1680 || 0x2000 <= n <= 0x200a || n == 0x2028 || n == 0x2029 || n == 0x202f
    || n == 0x205f || n == 0x3000
  }

  /** How many whitespace characters `s` starts with. */
  function LeadingSpace(s: string): (n: nat)
    ensures n <= |s|
    ensures forall k :: 0 <= k < n ==> IsSpace(s[k])
    ensures n < |s| ==> !IsSpace(s[n])
  {
    if s == [] || !IsSpace(s[0]) then 0
    else
      var n := LeadingSpace(s[1..]);
      assert forall k :: 1 <= k <= n ==> s[k] == s[1..][k - 1];
      1 + n
  }

  /** Where the whitespace that ends `s` begins, looking no further left
      than `lo`. */
  function TrailingSpace(s: string, lo: nat): (n: nat)
    requires lo <= |s|
    ensures lo <= n <= |s|
    ensures forall k :: n <= k < |s| ==> IsSpace(s[k])
    ensures lo < n ==> !IsSpace(s[n - 1])
    decreases |s|
  {
    if |s| == lo || !IsSpace(s[|s| - 1]) then |s|
    else TrailingSpace(s[..|s| - 1], lo)
  }

  /** `s.strip()`: `s` without its leading and trailing whitespace. */
  function Strip(s: string): (r: string)
    ensures var i := LeadingSpace(s);
            && i + |r| <= |s| && r == s[i..i + |r|]
            && (forall k :: 0 <= k < i ==> IsSpace(s[k]))
            && (forall k :: i + |r| <= k < |s| ==> IsSpace(s[k]))
    ensures r == [] || (!IsSpace(r[0]) && !IsSpace(r[|r| - 1]))
  {
    var lo := LeadingSpace(s);
    var hi := TrailingSpace(s, lo);
    s[lo..hi]
  }

  /** Stripping twice is stripping once. */
  lemma StripIdempotent(s: string)
    ensures Strip(Strip(s)) == Strip(s)
  {
    var r := Strip(s);
    StripUnchanged(r);
  }

  /** A string that neither starts nor ends with whitespace is its own strip. */
  lemma StripUnchanged(s: string)
    requires s == [] || (!IsSpace(s[0]) && !IsSpace(s[|s| - 1]))
    ensures Strip(s) == s
  {
    assert LeadingSpace(s) == 0;
    assert TrailingSpace(s, 0) == |s|;
  }

  /** How often `c` occurs in `s`. */
  function Count(s: string, c: char): nat {
    if s == [] then 0 else Count(s[..|s| - 1], c) + (if s[|s| - 1] == c then 1 else 0)
  }

  /** `sep.join(parts)` for a one-character separator. */
  function Join(parts: seq<string>, sep: char): string
    requires |parts| >= 1
  {
    if |parts| == 1 then parts[0] else Join(parts[..|parts| - 1], sep) + [sep] + parts[|parts| - 1]
  }

  /** `s.split(sep)` for a one-character separator: the pieces between the
      separators, empty ones included, so there is always one more piece
      than there are separators. */
  function Split(s: string, sep: char): (r: seq<string>)
    ensures |r| == Count(s, sep) + 1
    ensures forall i :: 0 <= i < |r| ==> sep !in r[i]
  {
    if s == [] then [""]
    else
      var p := Split(s[..|s| - 1], sep);
      var c := s[|s| - 1];
      if c == sep then p + [""] else p[..|p| - 1] + [p[|p| - 1] + [c]]
  }

  /** Joining the pieces with the separator gives the string back. */
  lemma {:induction false} JoinSplit(s: string, sep: char)
    ensures Join(Split(s, sep), sep) == s
  {
    if s != [] {
      var init, c := s[..|s| - 1], s[|s| - 1];
      var p := Split(init, sep);
      JoinSplit(init, sep);
      assert s == init + [c];
      if c != sep {
        JoinExtendLast(p, sep, c);
      } else {
        var r := p + [""];
        assert r[..|r| - 1] == p;
      }
    }
  }

  /** Adding a character to the last part adds it to the joined string. */
  lemma JoinExtendLast(p: seq<string>, sep: char, c: char)
    requires |p| >= 1
    ensures Join(p[..|p| - 1] + [p[|p| - 1] + [c]], sep) == Join(p, sep) + [c]
  {
    var r := p[..|p| - 1] + [p[|p| - 1] + [c]];
    assert r[..|r| - 1] == p[..|p| - 1];
  }

  /** Splitting what `Join` made gives the parts back. */
  lemma {:induction false} SplitJoin(parts: seq<string>, sep: char)
    requires |parts| >= 1 && forall i :: 0 <= i < |parts| ==> sep !in parts[i]
    ensures Split(Join(parts, sep), sep) == parts
  {
    if |parts| == 1 {
      SplitNoSep(parts[0], sep);
    } else {
      var init, last := parts[..|parts| - 1], parts[|parts| - 1];
      SplitJoin(init, sep);
      SplitAppend(Join(init, sep), last, sep);
      assert init + [last] == parts;
    }
  }

  /** A string without the separator is one piece. */
  lemma {:induction false} SplitNoSep(s: string, sep: char)
    requires sep !in s
    ensures Split(s, sep) == [s]
  {
    if s != [] {
      SplitNoSep(s[..|s| - 1], sep);
      assert s[..|s| - 1] + [s[|s| - 1]] == s;
    }
  }

  /** A separator ends the pieces of what precedes it; the pieces of what
      follows are added after them. */
  lemma {:induction false} SplitAppend(a: string, b: string, sep: char)
    requires sep !in b
    ensures Split(a + [sep] + b, sep) == Split(a, sep) + [b]
  {
    if b == [] {
      var x := a + [sep] + b;
      assert x[..|x| - 1] == a;
    } else {
      var b', c := b[..|b| - 1], b[|b| - 1];
      var y := a + [sep] + b';
      assert a + [sep] + b == y + [c];
      SplitAppend(a, b', sep);
      SplitLastChar(y, c, sep);
      var p := Split(a, sep) + [b'];
      assert p[..|p| - 1] == Split(a, sep);
      assert b' + [c] == b;
    }
  }

  /** A character other than the separator extends the last piece. */
  lemma SplitLastChar(y: string, c: char, sep: char)
    requires c != sep
    ensures var p := Split(y, sep); Split(y + [c], sep) == p[..|p| - 1] + [p[|p| - 1] + [c]]
  {
    var x := y + [c];
    assert x[..|x| - 1] == y;
  }

  /** The value of a non-empty string of ASCII digits. */
  predicate IsDigit(c: char) {
    48 <= c as int <= 57  // '0' to '9'
  }

  function DigitsValue(ds: string): nat
    requires forall i :: 0 <= i < |ds| ==> IsDigit(ds[i])
  {
    if ds == [] then 0
    else
      assert IsDigit(ds[|ds| - 1]);
      10 * DigitsValue(ds[..|ds| - 1]) + (ds[|ds| - 1] as int - 48)
  }

  /** `str(n)` for a natural number: its decimal digits, no leading zero. */
  function NatToString(n: nat): (r: string)
    ensures |r| >= 1 && forall i :: 0 <= i < |r| ==> IsDigit(r[i])
    ensures |r| > 1 ==> r[0] != '0'
  {
    var d := [(48 + n % 10) as char];
    if n < 10 then d else NatToString(n / 10) + d
  }

  /** The digits of `str(n)` have the value `n`. */
  lemma {:induction false} NatToStringValue(n: nat)
    ensures DigitsValue(NatToString(n)) == n
  {
    var s := NatToString(n);
    if n >= 10 {
      NatToStringValue(n / 10);
      assert s[..|s| - 1] == NatToString(n / 10);
    }
  }

  /** `str(n)` for any integer. */
  function IntToString(n: int): (r: string)
    ensures r != [] && !IsSpace(r[0]) && !IsSpace(r[|r| - 1])
  {
    if n < 0 then "-" + NatToString(-n) else NatToString(n)
  }

  /** `int(s)` for a string: an optional sign and at least one ASCII digit,
      with surrounding whitespace allowed; anything else raises
      `ValueError` (`None` here). */
  function ParseInt(s: string): (r: Option<int>)
  {
    var t := Strip(s);
    var sign := if t != [] && (t[0] == '-' || t[0] == '+') then 1 else 0;
    var ds := t[sign..];
    if ds != [] && forall i :: 0 <= i < |ds| ==> IsDigit(ds[i]) then
      var v: int := DigitsValue(ds);
      Some(if sign == 1 && t[0] == '-' then -v else v)
    else None
  }

  /** `int(str(n)) == n`. */
  lemma ParseIntToString(n: int)
    ensures ParseInt(IntToString(n)) == Some(n)
  {
    var s := IntToString(n);
    StripUnchanged(s);
    if n < 0 {
      var ds := NatToString(-n);
      NatToStringValue(-n);
      assert s == "-" + ds && s[1..] == ds;
    } else {
      NatToStringValue(n);
      assert !(s[0] == '-' || s[0] == '+');
    }
  }
}
