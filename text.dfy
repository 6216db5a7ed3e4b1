/**
 Python string operations the tool layer relies on: `sep.join`, `str.split`,
 `str(int)`, `str.strip`, `str.endswith`, the UTF-8 size that
 `os.path.getsize` reports for a text file, and the newline translation that
 `open(path, "r")` applies when reading.
 */
module Text {

  /** Python's `sep.join(parts)` for a one-character separator. */
  function JoinWith(sep: char, parts: seq<string>): (r: string)
    ensures |parts| == 0 ==> r == ""
  {
    if |parts| == 0 then ""
    else if |parts| == 1 then parts[0]
    else parts[0] + [sep] + JoinWith(sep, parts[1..])
  }

  /** Python's `s.split(sep)`: always at least one piece, and no piece holds `sep`. */
  function Split(sep: char, s: string): (r: seq<string>)
    ensures |r| >= 1
    ensures forall i :: 0 <= i < |r| ==> sep !in r[i]
  {
    if s == [] then [""]
    else if s[0] == sep then [""] + Split(sep, s[1..])
    else
      var t := Split(sep, s[1..]);
      [[s[0]] + t[0]] + t[1..]
  }

  /** Joining what `Split` cut gives back the original string. */
  lemma {:induction false} JoinSplit(sep: char, s: string)
    ensures JoinWith(sep, Split(sep, s)) == s
  {
    if s != [] {
      var t := Split(sep, s[1..]);
      JoinSplit(sep, s[1..]);
      if s[0] == sep {
        assert s == [sep] + s[1..];
      } else if |t| == 1 {
        assert s == [s[0]] + s[1..];
      } else {
        assert JoinWith(sep, t) == t[0] + [sep] + JoinWith(sep, t[1..]);
        assert s == [s[0]] + s[1..];
      }
    }
  }

  /** A piece free of the separator splits to itself. */
  lemma {:induction false} SplitPlain(sep: char, a: string)
    requires sep !in a
    ensures Split(sep, a) == [a]
  {
    if a != [] {
      SplitPlain(sep, a[1..]);
      assert [a[0]] + a[1..] == a;
    }
  }

  /** Gluing a character onto the first piece commutes with appending further pieces. */
  lemma GlueFirst(c: char, u: seq<string>, v: seq<string>)
    requires |u| >= 1
    ensures [[c] + (u + v)[0]] + (u + v)[1..] == ([[c] + u[0]] + u[1..]) + v
  {
    assert (u + v)[1..] == u[1..] + v;
  }

  /** Splitting at one separator splits each side on its own. */
  lemma {:induction false} SplitConcat(sep: char, a: string, b: string)
    ensures Split(sep, a + [sep] + b) == Split(sep, a) + Split(sep, b)
  {
    var s := a + [sep] + b;
    if a == [] {
      assert s == [sep] + b;
      assert s[1..] == b;
    } else {
      assert s[0] == a[0];
      assert s[1..] == a[1..] + [sep] + b;
      SplitConcat(sep, a[1..], b);
      if a[0] != sep {
        GlueFirst(a[0], Split(sep, a[1..]), Split(sep, b));
      }
    }
  }

  /** Splitting `a + sep + b` yields `a` followed by the pieces of `b`. */
  lemma SplitCons(sep: char, a: string, b: string)
    requires sep !in a
    ensures Split(sep, a + [sep] + b) == [a] + Split(sep, b)
  {
    SplitConcat(sep, a, b);
    SplitPlain(sep, a);
  }

  /** Splitting what `JoinWith` built gives back the parts, when no part holds the separator. */
  lemma {:induction false} SplitJoin(sep: char, parts: seq<string>)
    requires |parts| >= 1
    requires forall i :: 0 <= i < |parts| ==> sep !in parts[i]
    ensures Split(sep, JoinWith(sep, parts)) == parts
  {
    if |parts| == 1 {
      SplitPlain(sep, parts[0]);
    } else {
      SplitJoin(sep, parts[1..]);
      SplitCons(sep, parts[0], JoinWith(sep, parts[1..]));
      assert [parts[0]] + parts[1..] == parts;
    }
  }

  /** Appending one part to a join adds one separator and that part. */
  lemma {:induction false} JoinWithSnoc(sep: char, parts: seq<string>, x: string)
    ensures JoinWith(sep, parts + [x]) == if parts == [] then x else JoinWith(sep, parts) + [sep] + x
  {
    if |parts| >= 2 {
      JoinWithSnoc(sep, parts[1..], x);
      assert (parts + [x])[1..] == parts[1..] + [x];
    } else if |parts| == 1 {
      assert (parts + [x])[1..] == [x];
    }
  }

  /** The first part begins the join, and the last part ends it. */
  lemma {:induction false} JoinWithEnds(sep: char, parts: seq<string>)
    requires |parts| >= 1
    ensures parts[0] <= JoinWith(sep, parts)
    ensures EndsWith(JoinWith(sep, parts), parts[|parts| - 1])
  {
    var init := parts[..|parts| - 1];
    assert init + [parts[|parts| - 1]] == parts;
    JoinWithSnoc(sep, init, parts[|parts| - 1]);
  }

  /** Python's `s.endswith(suffix)`. */
  predicate EndsWith(s: string, suffix: string) {
    |suffix| <= |s| && s[|s| - |suffix|..] == suffix
  }

  predicate IsDigit(c: char) {
    '0' as int <= c as int <= '9' as int
  }

  function Digit(d: nat): (c: char)
    requires d < 10
    ensures IsDigit(c) && (c as int) - ('0' as int) == d
  {
    (('0' as int) + d) as char
  }

  /** Python's `str(n)` for a non-negative integer: decimal digits, no leading zero. */
  function NatToString(n: nat): (r: string)
    ensures |r| >= 1
    ensures forall i :: 0 <= i < |r| ==> IsDigit(r[i])
    ensures r[0] == '0' ==> n == 0
    decreases n
  {
    if n < 10 then [Digit(n)] else NatToString(n / 10) + [Digit(n % 10)]
  }

  /** The value of a string of decimal digits. */
  function ParseNat(s: string): nat
    requires forall i :: 0 <= i < |s| ==> IsDigit(s[i])
  {
    if s == [] then 0
    else
      assert IsDigit(s[|s| - 1]);
      10 * ParseNat(s[..|s| - 1]) + ((s[|s| - 1] as int) - ('0' as int))
  }

  /** Reading back the digits `NatToString` writes gives the number. */
  lemma {:induction false} NatToStringRoundTrip(n: nat)
    ensures ParseNat(NatToString(n)) == n
    decreases n
  {
    if n >= 10 {
      NatToStringRoundTrip(n / 10);
      var s := NatToString(n);
      assert s[..|s| - 1] == NatToString(n / 10);
    }
  }

  /** Python's `str(i)` for any integer, as used for return codes and sizes. */
  function IntToString(i: int): (r: string)
  {
    if i < 0 then "-" + NatToString(-i) else NatToString(i)
  }

  /** `IntToString` is injective: a printed number names exactly one integer. */
  lemma IntToStringInjective(i: int, j: int)
    requires IntToString(i) == IntToString(j)
    ensures i == j
  {
    NatToStringRoundTrip(if i < 0 then -i else i);
    NatToStringRoundTrip(if j < 0 then -j else j);
    if i < 0 && j < 0 {
      assert IntToString(i)[1..] == NatToString(-i);
      assert IntToString(j)[1..] == NatToString(-j);
    }
  }

  /**
   Python's `str.isspace` for one character: the Unicode code points whose
   category is Zs or whose bidirectional class is WS, B or S.
   */
  predicate IsSpace(c: char) {
    var k := c as int;
    (0x09 <= k <= 0x0D) || (0x1C <= k <= 0x20) || k == 0x85 || k == 0xA0 || k == 0x1680
    || (0x2000 <= k <= 0x200A) || k == 0x2028 || k == 0x2029 || k == 0x202F || k == 0x205F || k == 0x3000
  }

  /** Number of leading whitespace characters of `s`. */
  function LeadingSpace(s: string): (k: nat)
    ensures k <= |s|
    ensures forall i :: 0 <= i < k ==> IsSpace(s[i])
    ensures k < |s| ==> !IsSpace(s[k])
  {
    if s == [] || !IsSpace(s[0]) then 0 else 1 + LeadingSpace(s[1..])
  }

  /** Length of `s` without its trailing whitespace. */
  function TrailingStart(s: string): (k: nat)
    ensures k <= |s|
    ensures forall i :: k <= i < |s| ==> IsSpace(s[i])
    ensures k > 0 ==> !IsSpace(s[k - 1])
  {
    if s == [] || !IsSpace(s[|s| - 1]) then |s| else TrailingStart(s[..|s| - 1])
  }

  /**
   Python's `s.strip()`: the longest slice of `s` that neither starts nor ends
   with whitespace, once the whitespace around it is removed.
   */
  function Strip(s: string): (r: string)
    ensures LeadingSpace(s) + |r| <= |s|
    ensures r == s[LeadingSpace(s)..LeadingSpace(s) + |r|]
    ensures forall i :: LeadingSpace(s) + |r| <= i < |s| ==> IsSpace(s[i])
    ensures r != [] ==> !IsSpace(r[0]) && !IsSpace(r[|r| - 1])
  {
    var a := LeadingSpace(s);
    var b := TrailingStart(s);
    if a == |s| then [] else s[a..b]
  }

  /** Stripping twice is stripping once. */
  lemma StripIdempotent(s: string)
    ensures Strip(Strip(s)) == Strip(s)
  {
    var r := Strip(s);
    if r != [] {
      assert LeadingSpace(r) == 0;
      assert TrailingStart(r) == |r|;
    }
  }

  /** Joining two or three parts puts one separator between neighbours. */
  lemma JoinWithSmall(sep: char, a: string, b: string, c: string)
    ensures JoinWith(sep, [a, b]) == a + [sep] + b
    ensures JoinWith(sep, [a, b, c]) == a + [sep] + b + [sep] + c
  {
    assert [a, b][1..] == [b];
    assert [a, b, c][1..] == [b, c];
    assert JoinWith(sep, [b, c]) == b + [sep] + c;
    assert a + [sep] + (b + [sep] + c) == a + [sep] + b + [sep] + c;
  }

  /** Number of bytes of the UTF-8 encoding of one character. */
  function Utf8Width(c: char): (w: nat)
    ensures 1 <= w <= 4
  {
    var k := c as int;
    if k < 0x80 then 1 else if k < 0x800 then 2 else if k < 0x10000 then 3 else 4
  }

  /** Size in bytes of `s` written as UTF-8: what `os.path.getsize` reports for a file holding `s`. */
  function Utf8Size(s: string): (n: nat)
    ensures |s| <= n <= 4 * |s|
  {
    if s == [] then 0 else Utf8Width(s[0]) + Utf8Size(s[1..])
  }

  /**
   The text `open(path, "r").read()` returns for stored text `s`: universal
   newlines mode turns "\r\n" and a lone "\r" into "\n".
   */
  function UniversalNewlines(s: string): (r: string)
    ensures |r| <= |s|
  {
    if s == [] then []
    else if s[0] == '\r' then
      if |s| > 1 && s[1] == '\n' then "\n" + UniversalNewlines(s[2..])
      else "\n" + UniversalNewlines(s[1..])
    else [s[0]] + UniversalNewlines(s[1..])
  }

  /** No "\r" survives universal newlines, and text without one is left as it is. */
  lemma {:induction false} UniversalNewlinesPlain(s: string)
    ensures '\r' !in UniversalNewlines(s)
    ensures '\r' !in s ==> UniversalNewlines(s) == s
    decreases |s|
  {
    if s != [] {
      if s[0] == '\r' && |s| > 1 && s[1] == '\n' {
        UniversalNewlinesPlain(s[2..]);
      } else {
        UniversalNewlinesPlain(s[1..]);
        if '\r' !in s {
          assert s == [s[0]] + s[1..];
        }
      }
    }
  }

  /** Universal newlines on a piece ending in "\r" followed by "\n", a lone "\r", or any other character. */
  lemma UniversalNewlinesSteps(b: string, c: char)
    ensures UniversalNewlines("\r\n" + b) == "\n" + UniversalNewlines(b)
    ensures b == [] || b[0] != '\n' ==> UniversalNewlines("\r" + b) == "\n" + UniversalNewlines(b)
    ensures c != '\r' ==> UniversalNewlines([c] + b) == [c] + UniversalNewlines(b)
  {
    assert ("\r\n" + b)[2..] == b;
    assert ("\r" + b)[1..] == b;
    assert ([c] + b)[1..] == b;
  }

  /**
   The first step of universal newlines on `a + b`, for `a` not ending in
   "\r": `h` is what the first character or "\r\n" of `a` becomes, and `k`
   how many characters of `a` it takes.
   */
  lemma UniversalNewlinesHead(a: string, b: string) returns (h: string, k: nat)
    requires a != [] && a[|a| - 1] != '\r'
    ensures 1 <= k <= |a|
    ensures UniversalNewlines(a) == h + UniversalNewlines(a[k..])
    ensures UniversalNewlines(a + b) == h + UniversalNewlines(a[k..] + b)
  {
    assert (a + b)[0] == a[0];
    if a[0] != '\r' {
      h, k := [a[0]], 1;
    } else if a[1] == '\n' {
      h, k := "\n", 2;
      assert (a + b)[1] == '\n';
    } else {
      h, k := "\n", 1;
      assert (a + b)[1] == a[1];
    }
    assert (a + b)[k..] == a[k..] + b;
  }

  /** Text may be translated piece by piece, cutting anywhere but right after a "\r". */
  lemma {:induction false} UniversalNewlinesConcat(a: string, b: string)
    requires a == [] || a[|a| - 1] != '\r'
    ensures UniversalNewlines(a + b) == UniversalNewlines(a) + UniversalNewlines(b)
    decreases |a|
  {
    if a == [] {
      assert a + b == b;
    } else {
      var h, k := UniversalNewlinesHead(a, b);
      var rest := a[k..];
      UniversalNewlinesConcat(rest, b);
      assert h + (UniversalNewlines(rest) + UniversalNewlines(b)) == (h + UniversalNewlines(rest)) + UniversalNewlines(b);
    }
  }

  /** The hexadecimal digit `repr` writes for `d`. */
  function HexDigit(d: nat): (c: char)
    requires d < 16
    ensures ('0' <= c <= '9') || ('a' <= c <= 'f')
  {
    if d < 10 then (('0' as int) + d) as char else (('a' as int) + d - 10) as char
  }

  /** The value of a hexadecimal digit. */
  function HexValue(c: char): nat {
    if '0' <= c <= '9' then (c as int) - ('0' as int)
    else if 'a' <= c <= 'f' then (c as int) - ('a' as int) + 10
    else 0
  }

  /** How Python's `repr` writes one character inside a literal quoted with `q`. */
  function ReprChar(c: char, q: char): string {
    if c == q || c == '\\' then ['\\', c]
    else if c == '\n' then "\\n"
    else if c == '\r' then "\\r"
    else if c == '\t' then "\\t"
    else if (c as int) < 0x20 || (c as int) == 0x7f then ['\\', 'x', HexDigit((c as int) / 16), HexDigit((c as int) % 16)]
    else [c]
  }

  /** The characters of `s` as `repr` writes them between quotes `q`. */
  function ReprBody(s: string, q: char): string {
    if s == [] then "" else ReprChar(s[0], q) + ReprBody(s[1..], q)
  }

  /**
   Python's `repr` of a string: single quotes, or double quotes when the
   string holds a single quote and no double quote.
   */
  function Repr(s: string): (r: string)
    ensures |r| >= 2 && r[0] == r[|r| - 1] && (r[0] == '\'' || r[0] == '"')
  {
    var q := if '\'' in s && '"' !in s then '"' else '\'';
    [q] + ReprBody(s, q) + [q]
  }

  /** Reading back the body of a string literal: each escape stands for one character. */
  function Unescape(b: string): string {
    if b == [] then ""
    else if b[0] == '\\' && |b| >= 4 && b[1] == 'x' then [(16 * HexValue(b[2]) + HexValue(b[3])) as char] + Unescape(b[4..])
    else if b[0] == '\\' && |b| >= 2 then
      (if b[1] == 'n' then "\n" else if b[1] == 'r' then "\r" else if b[1] == 't' then "\t" else [b[1]]) + Unescape(b[2..])
    else [b[0]] + Unescape(b[1..])
  }

  /** Reading back a string literal: its body between the quotes. */
  function Unrepr(r: string): string {
    if |r| < 2 then "" else Unescape(r[1..|r| - 1])
  }

  /** One written character reads back as that character. */
  lemma UnescapeChar(c: char, q: char, rest: string)
    requires q == '\'' || q == '"'
    ensures Unescape(ReprChar(c, q) + rest) == [c] + Unescape(rest)
  {
    var w := ReprChar(c, q);
    if |w| == 4 {
      var k := c as int;
      assert HexValue(HexDigit(k / 16)) == k / 16;
      assert HexValue(HexDigit(k % 16)) == k % 16;
      assert (w + rest)[4..] == rest;
    } else if |w| == 2 {
      assert (w + rest)[2..] == rest;
    } else {
      assert (w + rest)[1..] == rest;
    }
  }

  /** Reading back what `ReprBody` wrote gives the characters again. */
  lemma {:induction false} UnescapeReprBody(s: string, q: char)
    requires q == '\'' || q == '"'
    ensures Unescape(ReprBody(s, q)) == s
  {
    if s != [] {
      UnescapeChar(s[0], q, ReprBody(s[1..], q));
      UnescapeReprBody(s[1..], q);
    }
  }

  /** `repr` loses nothing: the literal reads back as the string. */
  lemma ReprRoundTrip(s: string)
    ensures Unrepr(Repr(s)) == s
  {
    var q := if '\'' in s && '"' !in s then '"' else '\'';
    var r := Repr(s);
    assert r[1..|r| - 1] == ReprBody(s, q);
    UnescapeReprBody(s, q);
  }
}
