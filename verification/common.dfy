/** Small helpers shared by the pipeline modules: an optional value, Python's
    whitespace set and the ASCII part of its digit and case classes, decimal
    rendering of naturals and the character-set strips of
    `str.strip`/`str.lstrip`. */
module Common {

  /** A value that may be absent: a missing key of a JSON object, or `None`. */
  datatype Option<+T> = None | Some(value: T) {
    /** `d.get(key, default)` */
    function GetOr(default: T): T {
      if Some? then value else default
    }
  }

  /** Python's whitespace set: the characters `str.isspace` accepts, which
      `str.strip`, `int()` and the `\s` class of a `str` regular expression
      all use. */
  predicate IsSpace(c: char) {
    // \t \n \v \f \r (9..13), the separators 28..31 and space
    9 <= c as int <= 13 || 28 <= c as int <= 32
    // next line, no-break space, ogham space mark
    || c as int == 0x85 || c as int == 0xA0 || c as int == 0x1680
    // en quad .. hair space, line and paragraph separators
    || 0x2000 <= c as int <= 0x200A || c as int == 0x2028 || c as int == 0x2029
    // narrow no-break, medium mathematical and ideographic spaces
    || c as int == 0x202F || c as int == 0x205F || c as int == 0x3000
  }

  const Whitespace: set<char> :=
    {9 as char, 10 as char, 11 as char, 12 as char, 13 as char,
     28 as char, 29 as char, 30 as char, 31 as char, ' ',
     0x85 as char, 0xA0 as char, 0x1680 as char,
     0x2000 as char, 0x2001 as char, 0x2002 as char, 0x2003 as char, 0x2004 as char, 0x2005 as char,
     0x2006 as char, 0x2007 as char, 0x2008 as char, 0x2009 as char, 0x200A as char,
     0x2028 as char, 0x2029 as char, 0x202F as char, 0x205F as char, 0x3000 as char}

  lemma WhitespaceIsSpace(c: char)
    ensures c in Whitespace <==> IsSpace(c)
  {
  }

  predicate IsDigit(c: char) {
    '0' <= c <= '9'
  }

  predicate AllDigits(s: string) {
    forall i :: 0 <= i < |s| ==> IsDigit(s[i])
  }

  function DigitValue(c: char): nat
    requires IsDigit(c)
  {
    c as int - '0' as int
  }

  /** ASCII `str.lower` of one character. */
  function Lower(c: char): char {
    if 'A' <= c <= 'Z' then (c as int + 32) as char else c
  }

  /** ASCII `str.upper` of one character. */
  function Upper(c: char): char {
    if 'a' <= c <= 'z' then (c as int - 32) as char else c
  }

  function LowerString(s: string): (r: string)
    ensures |r| == |s|
    ensures forall i :: 0 <= i < |s| ==> r[i] == Lower(s[i])
  {
    seq(|s|, i requires 0 <= i < |s| => Lower(s[i]))
  }

  function UpperString(s: string): (r: string)
    ensures |r| == |s|
    ensures forall i :: 0 <= i < |s| ==> r[i] == Upper(s[i])
  {
    seq(|s|, i requires 0 <= i < |s| => Upper(s[i]))
  }

  /** The value of a string of decimal digits. */
  function DecimalValue(s: string): nat
    requires AllDigits(s)
  {
    if s == [] then 0 else 10 * DecimalValue(s[..|s| - 1]) + DigitValue(s[|s| - 1])
  }

  /** `str(n)` for a non-negative Python int: decimal digits, no leading zero. */
  function NatToString(n: nat): (s: string)
    ensures |s| >= 1 && AllDigits(s)
    ensures DecimalValue(s) == n
    ensures n > 0 ==> s[0] != '0'
    ensures n == 0 ==> s == "0"
    decreases n
  {
    var last := [('0' as int + n % 10) as char];
    if n < 10 then
      last
    else
      var prefix := NatToString(n / 10);
      assert (prefix + last)[..|prefix + last| - 1] == prefix;
      prefix + last
  }

  /** Python's `str(b)` for a bool. */
  function BoolToString(b: bool): string {
    if b then "True" else "False"
  }

  predicate IsPrefix<T(==)>(p: seq<T>, s: seq<T>) {
    |p| <= |s| && s[..|p|] == p
  }

  /** Whether `needle` occurs in `s` (Python's `needle in s`). */
  predicate Contains<T(==)>(s: seq<T>, needle: seq<T>) {
    exists i :: 0 <= i <= |s| && IsPrefix(needle, s[i..])
  }

  /** `s.lstrip(chars)`: drops the longest prefix made of characters of `cs`. */
  function TrimStart(s: string, cs: set<char>): string {
    if s != [] && s[0] in cs then TrimStart(s[1..], cs) else s
  }

  /** `s.rstrip(chars)`: drops the longest suffix made of characters of `cs`. */
  function TrimEnd(s: string, cs: set<char>): string {
    if s != [] && s[|s| - 1] in cs then TrimEnd(s[..|s| - 1], cs) else s
  }

  /** `s.strip(chars)` */
  function Strip(s: string, cs: set<char>): string {
    TrimEnd(TrimStart(s, cs), cs)
  }

  /** What `lstrip` keeps is a suffix; all it drops is in `cs`; what it keeps
      does not start with a character of `cs`. */
  lemma {:induction false} TrimStartSpec(s: string, cs: set<char>)
    ensures var r := TrimStart(s, cs);
      |r| <= |s| && r == s[|s| - |r|..]
      && (forall i :: 0 <= i < |s| - |r| ==> s[i] in cs)
      && (r == [] || r[0] !in cs)
  {
    if s != [] && s[0] in cs {
      TrimStartSpec(s[1..], cs);
    }
  }

  /** What `rstrip` keeps is a prefix; all it drops is in `cs`; what it keeps
      does not end with a character of `cs`. */
  lemma {:induction false} TrimEndSpec(s: string, cs: set<char>)
    ensures var r := TrimEnd(s, cs);
      |r| <= |s| && r == s[..|r|]
      && (forall i :: |r| <= i < |s| ==> s[i] in cs)
      && (r == [] || r[|r| - 1] !in cs)
  {
    if s != [] && s[|s| - 1] in cs {
      TrimEndSpec(s[..|s| - 1], cs);
      var r := TrimEnd(s, cs);
      assert s[..|s| - 1][..|r|] == s[..|r|];
    }
  }

  /** What `Strip` keeps is the slice `s[i..j]`, everything it drops is in
      `cs`, and neither end of what it keeps is in `cs`. */
  lemma StripSlice(s: string, cs: set<char>) returns (i: nat, j: nat)
    ensures i <= j <= |s| && Strip(s, cs) == s[i..j]
    ensures forall k :: 0 <= k < i ==> s[k] in cs
    ensures forall k :: j <= k < |s| ==> s[k] in cs
    ensures i < j ==> s[i] !in cs && s[j - 1] !in cs
  {
    var t := TrimStart(s, cs);
    TrimStartSpec(s, cs);
    var r := TrimEnd(t, cs);
    TrimEndSpec(t, cs);
    i := |s| - |t|;
    j := i + |r|;
    assert t == s[i..];
    assert r == t[..|r|];
    forall k | j <= k < |s| ensures s[k] in cs {
      assert s[k] == t[k - i];
    }
  }

  /** Neither end of what `Strip` keeps is in `cs`. */
  lemma StripEnds(s: string, cs: set<char>)
    ensures var r := Strip(s, cs); r == [] || (r[0] !in cs && r[|r| - 1] !in cs)
  {
    var i, j := StripSlice(s, cs);
  }

  /** A string none of whose ends is in `cs` is left alone by `Strip`. */
  lemma StripClean(s: string, cs: set<char>)
    requires s == [] || (s[0] !in cs && s[|s| - 1] !in cs)
    ensures Strip(s, cs) == s
  {
  }
}
