/** Strings as Python sees them: white space, `strip`, and the characters that carry content. */
module Text {

  /** The code points `str.isspace` accepts. */
  predicate IsSpace(c: char) {
    var n := c as int;
    || 9 <= n <= 13
    || 28 <= n <= 32
    || n == 0x85 || n == 0xA0 || n == 0x1680
    || 0x2000 <= n <= 0x200A
    || n == 0x2028 || n == 0x2029 || n == 0x202F || n == 0x205F || n == 0x3000
  }

  /** They are 29, one by one. */
  lemma SpacesAre(c: char)
    ensures IsSpace(c) <==>
              c as int in {0x09, 0x0A, 0x0B, 0x0C, 0x0D, 0x1C, 0x1D, 0x1E, 0x1F, 0x20, 0x85, 0xA0, 0x1680,
                           0x2000, 0x2001, 0x2002, 0x2003, 0x2004, 0x2005, 0x2006, 0x2007, 0x2008, 0x2009, 0x200A,
                           0x2028, 0x2029, 0x202F, 0x205F, 0x3000}
  {
  }

  predicate Blank(s: string) {
    forall i | 0 <= i < |s| :: IsSpace(s[i])
  }

  function LeftStrip(s: string): (r: string)
    ensures |r| <= |s| && r == s[|s| - |r|..] && Blank(s[..|s| - |r|])
    ensures r != [] ==> !IsSpace(r[0])
  {
    if s != [] && IsSpace(s[0]) then
      var r := LeftStrip(s[1..]);
      assert s[..|s| - |r|] == [s[0]] + s[1..][..|s| - 1 - |r|];
      r
    else
      s
  }

  function RightStrip(s: string): (r: string)
    ensures r <= s && Blank(s[|r|..])
    ensures r != [] ==> !IsSpace(r[|r| - 1])
  {
    if s != [] && IsSpace(s[|s| - 1]) then
      var r := RightStrip(s[..|s| - 1]);
      assert s[|r|..] == s[..|s| - 1][|r|..] + [s[|s| - 1]];
      r
    else
      s
  }

  function Strip(s: string): string {
    RightStrip(LeftStrip(s))
  }

  /** `r` is what is left of `s` when the white space `a` and `b` at its ends is cut off. */
  ghost predicate Trims(s: string, a: string, r: string, b: string) {
    s == a + r + b && Blank(a) && Blank(b)
  }

  /** Stripping removes white space at both ends, all of it, and nothing else. */
  lemma {:induction false} StripCuts(s: string)
    ensures exists a, b :: Trims(s, a, Strip(s), b)
    ensures Strip(s) != [] ==> !IsSpace(Strip(s)[0]) && !IsSpace(Strip(s)[|Strip(s)| - 1])
    ensures Blank(s) <==> Strip(s) == []
  {
    hide LeftStrip, RightStrip;
    var l := LeftStrip(s);
    var a := s[..|s| - |l|];
    assert s == a + l;
    TrimsBoth(s, a, l);
    var b :| Trims(s, a, RightStrip(l), b);
    assert Trims(s, a, Strip(s), b);
  }

  lemma StripBlank(s: string)
    ensures Strip(s) == "" <==> Blank(s)
  {
    StripCuts(s);
  }

  lemma {:induction false} TrimsBoth(s: string, a: string, l: string)
    requires s == a + l && Blank(a) && (l != [] ==> !IsSpace(l[0]))
    ensures exists b :: Trims(s, a, RightStrip(l), b)
    ensures RightStrip(l) != [] ==> !IsSpace(RightStrip(l)[0])
    ensures Blank(s) <==> RightStrip(l) == []
  {
    var r := RightStrip(l);
    var b := l[|r|..];
    assert l == r + b;
    assert Trims(s, a, r, b) by { assert a + l == a + r + b; }
    if r != [] {
      assert s[|a|] == l[0];
    }
  }

  /** The concatenation of a list of strings. */
  function Flatten(ss: seq<string>): string {
    if ss == [] then [] else ss[0] + Flatten(ss[1..])
  }

  lemma {:induction false} FlattenConcat(a: seq<string>, b: seq<string>)
    ensures Flatten(a + b) == Flatten(a) + Flatten(b)
  {
    if a == [] {
      assert a + b == b;
    } else {
      FlattenConcat(a[1..], b);
      assert (a + b)[1..] == a[1..] + b && (a + b)[0] == a[0];
      assert a[0] + (Flatten(a[1..]) + Flatten(b)) == a[0] + Flatten(a[1..]) + Flatten(b);
    }
  }

  /** The characters of `s` that are not white space, in order. */
  function Ink(s: string): string {
    if s == [] then [] else (if IsSpace(s[0]) then [] else [s[0]]) + Ink(s[1..])
  }

  lemma {:induction false} InkConcat(a: string, b: string)
    ensures Ink(a + b) == Ink(a) + Ink(b)
  {
    if a == [] {
      assert a + b == b;
    } else {
      InkConcat(a[1..], b);
      assert (a + b)[1..] == a[1..] + b && (a + b)[0] == a[0];
      var first := if IsSpace(a[0]) then [] else [a[0]];
      assert first + (Ink(a[1..]) + Ink(b)) == first + Ink(a[1..]) + Ink(b);
    }
  }

  lemma {:induction false} InkBlank(s: string)
    ensures Blank(s) <==> Ink(s) == []
  {
    if s != [] {
      InkBlank(s[1..]);
      assert Blank(s) <==> IsSpace(s[0]) && Blank(s[1..]);
    }
  }

  /** Ink is what is there when white space is taken out: all of a text without any. */
  lemma {:induction false} InkOfSolid(s: string)
    requires forall i | 0 <= i < |s| :: !IsSpace(s[i])
    ensures Ink(s) == s
  {
    if s != "" {
      InkOfSolid(s[1..]);
      assert s == [s[0]] + s[1..];
    }
  }

  lemma StripKeepsInk(s: string)
    ensures Ink(Strip(s)) == Ink(s)
  {
    StripCuts(s);
    hide Strip, Blank;
    var a, b :| Trims(s, a, Strip(s), b);
    InkBlank(a);
    InkBlank(b);
    InkConcat(a, Strip(s));
    InkConcat(a + Strip(s), b);
  }

  lemma StripTwice(s: string)
    ensures Strip(Strip(s)) == Strip(s)
  {
    StripCuts(s);
    StripOfStripped(Strip(s));
  }

  lemma StripOfStripped(r: string)
    requires r != "" ==> !IsSpace(r[0]) && !IsSpace(r[|r| - 1])
    ensures Strip(r) == r
  {
  }

  /******* The order of strings *******/

  /** The order of strings by code points. */
  predicate Less(a: string, b: string) {
    b != "" && (a == "" || a[0] < b[0] || (a[0] == b[0] && Less(a[1..], b[1..])))
  }

  lemma {:induction false} LessIrreflexive(a: string)
    ensures !Less(a, a)
  {
    if a != "" {
      LessIrreflexive(a[1..]);
    }
  }

  lemma {:induction false} LessTransitive(a: string, b: string, c: string)
    requires Less(a, b) && Less(b, c)
    ensures Less(a, c)
  {
    if a != "" && a[0] == b[0] == c[0] {
      LessTransitive(a[1..], b[1..], c[1..]);
    }
  }

  lemma {:induction false} LessTotal(a: string, b: string)
    ensures Less(a, b) || a == b || Less(b, a)
  {
    if a != "" && b != "" && a[0] == b[0] {
      LessTotal(a[1..], b[1..]);
      assert a[1..] == b[1..] ==> a == b by { assert a == [a[0]] + a[1..] && b == [b[0]] + b[1..]; }
    }
  }

  /** Strictly ascending in that order. */
  predicate Ascending(ss: seq<string>) {
    forall i, j | 0 <= i < j < |ss| :: Less(ss[i], ss[j])
  }

  lemma {:induction false} LeastExists(s: set<string>) returns (least: string)
    requires s != {}
    ensures least in s && forall b | b in s :: b == least || Less(least, b)
    decreases |s|
  {
    var a :| a in s;
    var rest := s - {a};
    if rest == {} {
      least := a;
      assert s == rest + {a};
    } else {
      var m := LeastExists(rest);
      LessTotal(a, m);
      least := if Less(a, m) then a else m;
      forall b | b in s
        ensures b == least || Less(least, b)
      {
        if b != a && b != m && Less(a, m) {
          LessTransitive(a, m, b);
        }
      }
    }
  }

  /** A set has one ascending list. */
  lemma {:induction false} AscendingIsUnique(a: seq<string>, b: seq<string>)
    requires Ascending(a) && Ascending(b) && forall x :: x in a <==> x in b
    ensures a == b
  {
    assert a != [] ==> a[0] in a;
    assert b != [] ==> b[0] in b;
    if a != [] {
      var i :| 0 <= i < |b| && b[i] == a[0];
      var j :| 0 <= j < |a| && a[j] == b[0];
      if i > 0 && j > 0 {
        LessTransitive(a[0], b[0], a[0]);
        LessIrreflexive(a[0]);
      }
      assert a[0] == b[0];
      RestAscends(a);
      RestAscends(b);
      forall x
        ensures x in a[1..] <==> x in b[1..]
      {
        assert x in a[1..] <==> x in a && x != a[0];
        assert x in b[1..] <==> x in b && x != b[0];
      }
      AscendingIsUnique(a[1..], b[1..]);
      assert a == [a[0]] + a[1..] && b == [b[0]] + b[1..];
    }
  }

  lemma RestAscends(a: seq<string>)
    requires a != [] && Ascending(a)
    ensures Ascending(a[1..]) && a[0] !in a[1..]
    ensures forall x :: x in a <==> x == a[0] || x in a[1..]
  {
    LessIrreflexive(a[0]);
    hide Less;
    assert a == [a[0]] + a[1..];
  }

  /******* Decimal notation *******/

  const DIGITS := "0123456789"

  /** The decimal notation of a natural number, as `str` and a cast to text give it. */
  function Decimal(n: nat): (s: string)
    ensures s != ""
  {
    if n < 10 then [DIGITS[n]] else Decimal(n / 10) + [DIGITS[n % 10]]
  }

  lemma {:induction false} DecimalInjective(m: nat, n: nat)
    requires Decimal(m) == Decimal(n)
    ensures m == n
  {
    var s := Decimal(m);
    var last := s[|s| - 1];
    assert last == DIGITS[m % 10] == DIGITS[n % 10];
    DigitsDistinct(m % 10, n % 10);
    if m >= 10 && n >= 10 {
      assert Decimal(m / 10) == s[..|s| - 1] == Decimal(n / 10);
      DecimalInjective(m / 10, n / 10);
    }
  }

  lemma DigitsDistinct(i: nat, j: nat)
    requires i < 10 && j < 10 && DIGITS[i] == DIGITS[j]
    ensures i == j
  {
  }

  predicate IsDigits(s: string) {
    s != "" && forall i | 0 <= i < |s| :: '0' <= s[i] <= '9'
  }

  /** The value of a string of ASCII digits, as `int` reads it. */
  function ParseDigits(s: string): (n: nat)
    requires forall i | 0 <= i < |s| :: '0' <= s[i] <= '9'
  {
    if s == "" then 0 else 10 * ParseDigits(s[..|s| - 1]) + (s[|s| - 1] as int - '0' as int)
  }

  lemma {:induction false} ParseDecimal(n: nat)
    ensures IsDigits(Decimal(n)) && ParseDigits(Decimal(n)) == n
  {
    var s := Decimal(n);
    assert DIGITS[n % 10] as int == '0' as int + n % 10;
    if n >= 10 {
      ParseDecimal(n / 10);
      assert s[..|s| - 1] == Decimal(n / 10);
    } else {
      assert s[..|s| - 1] == "";
    }
  }
}
