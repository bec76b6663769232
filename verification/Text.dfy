/** The parts of Go's strings, strconv and path/filepath packages that the daemon uses. */
module Text {

  /** unicode.IsSpace. */
  predicate IsSpace(c: char) {
    var n := c as int;
    || 9 <= n <= 13 || n == 0x20 || n == 0x85 || n == 0xA0 || n == 0x1680
    || 0x2000 <= n <= 0x200A || n == 0x2028 || n == 0x2029 || n == 0x202F || n == 0x205F || n == 0x3000
  }

  predicate HasPrefix(s: string, prefix: string) {
    prefix <= s
  }

  predicate Contains(s: string, part: string) {
    exists i | 0 <= i <= |s| :: part <= s[i..]
  }

  /** `part` occurs in `text`. */
  ghost predicate PartOf(part: string, text: string) {
    exists before, after :: text == before + part + after
  }

  lemma ContainsIsPart(text: string, part: string)
    ensures Contains(text, part) <==> PartOf(part, text)
  {
    if Contains(text, part) {
      var i :| 0 <= i <= |text| && part <= text[i..];
      assert text == text[..i] + part + text[i + |part|..];
    }
    if PartOf(part, text) {
      var before, after :| text == before + part + after;
      assert text[|before|..] == part + after;
    }
  }

  lemma ContainsChar(text: string, c: char)
    ensures Contains(text, [c]) <==> c in text
  {
    if c in text {
      var i :| 0 <= i < |text| && text[i] == c;
      assert [c] <= text[i..];
    }
    if Contains(text, [c]) {
      var i :| 0 <= i <= |text| && [c] <= text[i..];
      assert text[i..][0] == c;
    }
  }

  /** The white space of unicode.IsSpace, one by one. */
  lemma SpacesExact(c: char)
    ensures IsSpace(c) <==>
            c in "\t\n\U{0B}\U{0C}\r \U{85}\U{A0}\U{1680}\U{2000}\U{2001}\U{2002}\U{2003}\U{2004}\U{2005}\U{2006}"
                 + "\U{2007}\U{2008}\U{2009}\U{200A}\U{2028}\U{2029}\U{202F}\U{205F}\U{3000}"
  {
  }

  // ----- Trimming -----

  function TrimLeft(s: string, cut: char -> bool): string {
    if s != "" && cut(s[0]) then TrimLeft(s[1..], cut) else s
  }

  function TrimRight(s: string, cut: char -> bool): string {
    if s != "" && cut(s[|s| - 1]) then TrimRight(s[..|s| - 1], cut) else s
  }

  function Trim(s: string, cut: char -> bool): string {
    TrimRight(TrimLeft(s, cut), cut)
  }

  function TrimSpace(s: string): string {
    Trim(s, IsSpace)
  }

  /** Nothing is left to cut at either end. */
  ghost predicate Trimmed(s: string, cut: char -> bool) {
    s == "" || (!cut(s[0]) && !cut(s[|s| - 1]))
  }

  lemma {:induction false} TrimLeftShape(s: string, cut: char -> bool)
    ensures var r := TrimLeft(s, cut); (r == "" || !cut(r[0])) && forall c :: c in r ==> c in s
  {
    if s != "" && cut(s[0]) { TrimLeftShape(s[1..], cut); }
  }

  lemma {:induction false} TrimRightShape(s: string, cut: char -> bool)
    ensures var r := TrimRight(s, cut); r <= s && (r == "" || !cut(r[|r| - 1])) && forall c :: c in r ==> c in s
  {
    if s != "" && cut(s[|s| - 1]) { TrimRightShape(s[..|s| - 1], cut); }
  }

  lemma TrimShape(s: string, cut: char -> bool)
    ensures var r := Trim(s, cut); Trimmed(r, cut) && forall c :: c in r ==> c in s
  {
    TrimLeftShape(s, cut);
    TrimRightShape(TrimLeft(s, cut), cut);
  }

  lemma TrimFixes(s: string, cut: char -> bool)
    requires Trimmed(s, cut)
    ensures Trim(s, cut) == s
  {
  }

  ghost predicate AllCut(s: string, cut: char -> bool) {
    forall c :: c in s ==> cut(c)
  }

  lemma {:induction false} TrimLeftPads(a: string, m: string, cut: char -> bool)
    requires AllCut(a, cut) && (m == "" || !cut(m[0]))
    ensures TrimLeft(a + m, cut) == m
    decreases |a|
  {
    if a == "" {
      assert a + m == m;
    } else {
      TrimLeftPads(a[1..], m, cut);
      assert (a + m)[1..] == a[1..] + m;
    }
  }

  lemma {:induction false} TrimRightPads(m: string, b: string, cut: char -> bool)
    requires AllCut(b, cut) && (m == "" || !cut(m[|m| - 1]))
    ensures TrimRight(m + b, cut) == m
    decreases |b|
  {
    if b == "" {
      assert m + b == m;
    } else {
      TrimRightPads(m, b[..|b| - 1], cut);
      assert (m + b)[..|m + b| - 1] == m + b[..|b| - 1];
      assert b[|b| - 1] in b;
    }
  }

  /** Trimming removes any padding and nothing else. */
  lemma TrimRemovesPadding(a: string, m: string, b: string, cut: char -> bool)
    requires AllCut(a, cut) && AllCut(b, cut) && Trimmed(m, cut)
    ensures Trim(a + m + b, cut) == m
  {
    if m == "" {
      TrimLeftPads(a + b, "", cut);
      assert a + m + b == (a + b) + "";
    } else {
      TrimLeftPads(a, m + b, cut);
      assert a + m + b == a + (m + b);
      TrimRightPads(m, b, cut);
    }
  }

  // ----- Splitting and joining -----

  function Split(s: string, sep: char): (parts: seq<string>)
    ensures |parts| > 0
  {
    if s == "" then [""]
    else
      var rest := Split(s[1..], sep);
      if s[0] == sep then [""] + rest else [[s[0]] + rest[0]] + rest[1..]
  }

  function Join(parts: seq<string>, sep: char): string {
    if parts == [] then ""
    else if |parts| == 1 then parts[0]
    else parts[0] + [sep] + Join(parts[1..], sep)
  }

  lemma {:induction false} SplitHead(a: string, b: string, sep: char)
    requires sep !in a
    ensures Split(a, sep) == [a]
    ensures Split(a + [sep] + b, sep) == [a] + Split(b, sep)
  {
    if a == "" {
      assert ("" + [sep] + b)[1..] == b;
    } else {
      SplitHead(a[1..], b, sep);
      assert (a + [sep] + b)[1..] == a[1..] + [sep] + b;
      assert [a[0]] + a[1..] == a;
    }
  }

  /** One more character in front. */
  function Prefix(c: char, sep: char, parts: seq<string>): seq<string>
    requires parts != []
  {
    if c == sep then [""] + parts else [[c] + parts[0]] + parts[1..]
  }

  lemma SplitFirst(s: string, sep: char)
    requires s != ""
    ensures Split(s, sep) == Prefix(s[0], sep, Split(s[1..], sep))
  {
  }

  lemma Prefixed(c: char, sep: char, a: seq<string>, b: seq<string>)
    requires a != []
    ensures Prefix(c, sep, a + b) == Prefix(c, sep, a) + b
  {
    assert (a + b)[1..] == a[1..] + b;
  }

  lemma {:induction false} SplitConcat(x: string, y: string, sep: char)
    ensures Split(x + [sep] + y, sep) == Split(x, sep) + Split(y, sep)
    decreases |x|
  {
    if x == "" {
      assert (x + [sep] + y)[1..] == y;
    } else {
      SplitConcat(x[1..], y, sep);
      SplitFirst(x, sep);
      SplitFirst(x + [sep] + y, sep);
      assert (x + [sep] + y)[1..] == x[1..] + [sep] + y;
      Prefixed(x[0], sep, Split(x[1..], sep), Split(y, sep));
    }
  }

  lemma {:induction false} SplitInvertsJoin(parts: seq<string>, sep: char)
    requires parts != [] && forall p :: p in parts ==> sep !in p
    ensures Split(Join(parts, sep), sep) == parts
  {
    if |parts| == 1 {
      SplitHead(parts[0], "", sep);
    } else {
      SplitHead(parts[0], Join(parts[1..], sep), sep);
      SplitInvertsJoin(parts[1..], sep);
    }
  }

  lemma {:induction false} SplitPieces(s: string, sep: char)
    ensures forall p :: p in Split(s, sep) ==> sep !in p
  {
    if s != "" {
      SplitPieces(s[1..], sep);
      var rest := Split(s[1..], sep);
      assert rest[0] in rest;
    }
  }

  /** Length of the run of characters before the first space. */
  function WordLength(s: string): (n: nat)
    ensures n <= |s|
    ensures s != "" && !IsSpace(s[0]) ==> n > 0
  {
    if s == "" || IsSpace(s[0]) then 0 else 1 + WordLength(s[1..])
  }

  /** strings.Fields: the maximal runs of non-space characters. */
  function Fields(s: string): seq<string>
    decreases |s|
  {
    if s == "" then []
    else if IsSpace(s[0]) then Fields(s[1..])
    else [s[..WordLength(s)]] + Fields(s[WordLength(s)..])
  }

  /** Any white space separates fields. */
  lemma {:induction false} FieldsConcat(x: string, c: char, y: string)
    requires IsSpace(c)
    ensures Fields(x + [c] + y) == Fields(x) + Fields(y)
    decreases |x|
  {
    var all := x + [c] + y;
    if x == "" {
      assert all[1..] == y;
    } else if IsSpace(x[0]) {
      FieldsConcat(x[1..], c, y);
      assert all[1..] == x[1..] + [c] + y;
    } else {
      var n := WordLength(x);
      WordStops(x, c, y);
      FieldsConcat(x[n..], c, y);
      assert all[n..] == x[n..] + [c] + y && all[..n] == x[..n];
    }
  }

  lemma {:induction false} WordStops(x: string, c: char, y: string)
    requires IsSpace(c)
    ensures WordLength(x + [c] + y) == WordLength(x)
  {
    if x == "" {
      assert (x + [c] + y)[0] == c;
    } else if !IsSpace(x[0]) {
      WordStops(x[1..], c, y);
      assert (x + [c] + y)[1..] == x[1..] + [c] + y;
    }
  }

  // ----- Paths and letter case -----

  function LowerChar(c: char): char {
    if 'A' <= c <= 'Z' then c + 32 as char else c
  }

  function ToLower(s: string): string {
    seq(|s|, i requires 0 <= i < |s| => LowerChar(s[i]))
  }

  function AfterLastSlash(s: string): string {
    if s == "" then ""
    else if s[|s| - 1] == '/' then ""
    else AfterLastSlash(s[..|s| - 1]) + [s[|s| - 1]]
  }

  /** filepath.Base on Unix. */
  function Base(path: string): (b: string)
    ensures b != ""
  {
    if path == "" then "."
    else
      var base := AfterLastSlash(TrimRight(path, c => c == '/'));
      if base == "" then "/" else base
  }

  // ----- Decimal numerals -----

  function Digit(d: nat): char
    requires d < 10
  {
    (48 + d) as char
  }

  function Digits(n: nat): string {
    if n < 10 then [Digit(n)] else Digits(n / 10) + [Digit(n % 10)]
  }

  /** strconv.Itoa. */
  function Itoa(n: int): string {
    if n < 0 then "-" + Digits(-n) else Digits(n)
  }

  lemma {:induction false} DigitsShape(n: nat)
    ensures Digits(n) != "" && forall c :: c in Digits(n) ==> '0' <= c <= '9'
  {
    if n >= 10 { DigitsShape(n / 10); }
  }

  lemma {:induction false} DigitsInjective(a: nat, b: nat)
    requires Digits(a) == Digits(b)
    ensures a == b
  {
    var s := Digits(a);
    DigitsShape(a / 10);
    DigitsShape(b / 10);
    assert s[|s| - 1] == Digit(a % 10) == Digit(b % 10);
    if a >= 10 && b >= 10 {
      assert Digits(a / 10) == s[..|s| - 1] == Digits(b / 10);
      DigitsInjective(a / 10, b / 10);
    } else {
      assert |s| == 1;
    }
  }

  /** The number a digit string stands for. */
  function ValueOf(s: string): int {
    if s == "" then 0 else 10 * ValueOf(s[..|s| - 1]) + (s[|s| - 1] as int - '0' as int)
  }

  lemma {:induction false} DigitsValue(n: nat)
    ensures ValueOf(Digits(n)) == n
    ensures Digits(n)[0] == '0' ==> n == 0
  {
    if n >= 10 {
      DigitsValue(n / 10);
      DigitsShape(n / 10);
      assert Digits(n)[..|Digits(n)| - 1] == Digits(n / 10);
    } else {
      assert [Digit(n)][..0] == "";
    }
  }

  /** Itoa writes a sign where needed and then the decimal digits, without leading zeros. */
  lemma ItoaIsDecimal(n: int)
    ensures n < 0 ==> Itoa(n)[0] == '-' && ValueOf(Itoa(n)[1..]) == -n && Itoa(n)[1] != '0'
    ensures n >= 0 ==> ValueOf(Itoa(n)) == n && (Itoa(n)[0] == '0' ==> n == 0)
    ensures n == 0 ==> Itoa(n) == "0"
  {
    var m := if n < 0 then -n else n;
    DigitsValue(m);
    DigitsShape(m);
    assert n < 0 ==> Itoa(n)[1..] == Digits(m);
  }

  lemma ItoaShape(n: int)
    ensures forall c :: c in Itoa(n) ==> c == '-' || '0' <= c <= '9'
  {
    DigitsShape(if n < 0 then -n else n);
  }

  lemma ItoaInjective(a: int, b: int)
    requires Itoa(a) == Itoa(b)
    ensures a == b
  {
    DigitsShape(if a < 0 then -a else a);
    DigitsShape(if b < 0 then -b else b);
    assert a >= 0 ==> Itoa(a)[0] in Digits(a);
    assert b >= 0 ==> Itoa(b)[0] in Digits(b);
    if a < 0 {
      assert Digits(-a) == Itoa(a)[1..] == Digits(-b);
      DigitsInjective(-a, -b);
    } else {
      DigitsInjective(a, b);
    }
  }

  /** A separator that the left part lacks makes concatenation injective. */
  lemma SeparatorSplits(a: string, x: string, b: string, y: string, sep: char)
    requires sep !in a && sep !in b
    requires a + [sep] + x == b + [sep] + y
    ensures a == b && x == y
  {
    SplitHead(a, x, sep);
    SplitHead(b, y, sep);
    var whole := a + [sep] + x;
    assert a == Split(whole, sep)[0] == b;
    assert x == whole[|a| + 1..] == (b + [sep] + y)[|b| + 1..] == y;
  }
}
