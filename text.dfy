/**
 * The parts of `java.lang.String` and `Integer` that the catalog relies on:
 * `trim`, `lastIndexOf`, `split(",")`, `compareToIgnoreCase`,
 * `Integer.toString` and `Integer.parseInt`.
 */
module Text {
  import opened Base

  // ---------------------------------------------------------------- trim

  /** Number of leading characters that `trim` drops (code point at most U+0020). */
  function LeadingBlanks(s: string): (k: nat)
    ensures k <= |s|
    ensures forall i :: 0 <= i < k ==> s[i] <= ' '
    ensures k < |s| ==> s[k] > ' '
  {
    if s == [] || s[0] > ' ' then 0 else 1 + LeadingBlanks(s[1..])
  }

  /** Number of trailing characters that `trim` drops. */
  function TrailingBlanks(s: string): (k: nat)
    ensures k <= |s|
    ensures forall i :: |s| - k <= i < |s| ==> s[i] <= ' '
    ensures k < |s| ==> s[|s| - 1 - k] > ' '
  {
    if s == [] || s[|s| - 1] > ' ' then 0 else 1 + TrailingBlanks(s[..|s| - 1])
  }

  /** `String.trim`: the slice between the first and the last character above U+0020. */
  function Trim(s: string): (r: string)
    ensures r == [] <==> forall i :: 0 <= i < |s| ==> s[i] <= ' '
    ensures r != [] ==> r[0] > ' ' && r[|r| - 1] > ' '
    ensures |r| <= |s|
    ensures LeadingBlanks(s) + |r| <= |s| && r == s[LeadingBlanks(s)..LeadingBlanks(s) + |r|]
  {
    var a := LeadingBlanks(s);
    if a == |s| then []
    else
      var b := TrailingBlanks(s);
      assert s[a] > ' ' && s[|s| - 1 - b] > ' ';
      s[a..|s| - b]
  }

  /** `s.trim().isEmpty()` */
  predicate IsBlank(s: string) {
    Trim(s) == []
  }

  /** Trimming twice is trimming once. */
  lemma TrimIdempotent(s: string)
    ensures Trim(Trim(s)) == Trim(s)
  {
    var t := Trim(s);
    if t != [] {
      assert LeadingBlanks(t) == 0;
      assert TrailingBlanks(t) == 0;
    }
  }

  // ---------------------------------------------------------- lastIndexOf

  /** `String.lastIndexOf(c)`: -1 when `c` does not occur. */
  function LastIndexOf(s: string, c: char): (r: int)
    ensures -1 <= r < |s|
    ensures r == -1 <==> c !in s
    ensures r >= 0 ==> s[r] == c && c !in s[r + 1..]
  {
    if s == [] then -1
    else if s[|s| - 1] == c then |s| - 1
    else
      var r := LastIndexOf(s[..|s| - 1], c);
      assert s == s[..|s| - 1] + [s[|s| - 1]];
      if r >= 0 then assert s[r + 1..] == s[..|s| - 1][r + 1..] + [s[|s| - 1]]; r
      else r
  }

  // --------------------------------------------------------------- split

  /** Every piece of `s` between occurrences of `sep`, left to right (empty pieces included). */
  function Split(s: string, sep: char): (r: seq<string>)
    ensures |r| >= 1
    ensures forall k :: 0 <= k < |r| ==> sep !in r[k]
  {
    if s == [] then [[]]
    else
      var rest := Split(s[1..], sep);
      if s[0] == sep then [[]] + rest
      else [[s[0]] + rest[0]] + rest[1..]
  }

  /** The pieces glued back together with `sep`. */
  function Join(xs: seq<string>, sep: char): string
    requires |xs| >= 1
  {
    if |xs| == 1 then xs[0] else xs[0] + [sep] + Join(xs[1..], sep)
  }

  lemma {:induction false} SplitHead(x: string, rest: string, sep: char)
    requires sep !in x
    ensures Split(x + [sep] + rest, sep) == [x] + Split(rest, sep)
  {
    if x == [] {
      assert x + [sep] + rest == [sep] + rest;
    } else {
      assert (x + [sep] + rest)[1..] == x[1..] + [sep] + rest;
      SplitHead(x[1..], rest, sep);
      assert [x[0]] + x[1..] == x;
    }
  }

  lemma {:induction false} SplitLast(x: string, sep: char)
    requires sep !in x
    ensures Split(x, sep) == [x]
  {
    if x != [] {
      SplitLast(x[1..], sep);
      assert [x[0]] + x[1..] == x;
    }
  }

  /** Splitting a joined list gives the list back when no piece holds the separator. */
  lemma {:induction false} SplitJoin(xs: seq<string>, sep: char)
    requires |xs| >= 1
    requires forall k :: 0 <= k < |xs| ==> sep !in xs[k]
    ensures Split(Join(xs, sep), sep) == xs
  {
    if |xs| == 1 {
      SplitLast(xs[0], sep);
    } else {
      SplitHead(xs[0], Join(xs[1..], sep), sep);
      SplitJoin(xs[1..], sep);
    }
  }

  /** A separator between two texts separates their pieces. */
  lemma {:induction false} SplitAppend(a: string, b: string, sep: char)
    ensures Split(a + [sep] + b, sep) == Split(a, sep) + Split(b, sep)
  {
    if a == [] {
      assert a + [sep] + b == [sep] + b;
    } else {
      assert (a + [sep] + b)[1..] == a[1..] + [sep] + b;
      SplitAppend(a[1..], b, sep);
    }
  }

  /** Every piece of a text holds only characters of that text. */
  lemma {:induction false} SplitChars(s: string, sep: char, k: nat, i: nat)
    requires k < |Split(s, sep)| && i < |Split(s, sep)[k]|
    ensures Split(s, sep)[k][i] in s
  {
    if s != [] {
      var rest := Split(s[1..], sep);
      if s[0] == sep {
        if k > 0 {
          SplitChars(s[1..], sep, k - 1, i);
        }
      } else if k == 0 {
        if i > 0 {
          SplitChars(s[1..], sep, 0, i - 1);
        }
      } else {
        SplitChars(s[1..], sep, k, i);
      }
    }
  }

  /** Joining the pieces of a split gives the text back. */
  lemma {:induction false} JoinSplit(s: string, sep: char)
    ensures Join(Split(s, sep), sep) == s
  {
    if s != [] {
      JoinSplit(s[1..], sep);
      var rest := Split(s[1..], sep);
      if s[0] != sep {
        var r := Split(s, sep);
        if |rest| == 1 {
          assert r == [[s[0]] + rest[0]];
        } else {
          assert r[1..] == rest[1..];
          assert Join(rest, sep) == rest[0] + [sep] + Join(rest[1..], sep);
        }
      } else {
        assert Split(s, sep)[1..] == rest;
      }
    }
  }

  // ---------------------------------------------------- case-insensitive order

  /** `Character.toUpperCase` restricted to ASCII letters. */
  function ToUpper(c: char): char {
    if 'a' <= c <= 'z' then (c as int - 32) as char else c
  }

  /** `Character.toLowerCase` restricted to ASCII letters. */
  function ToLower(c: char): char {
    if 'A' <= c <= 'Z' then (c as int + 32) as char else c
  }

  /** The character `compareToIgnoreCase` finally compares: lower case of upper case. */
  function FoldChar(c: char): char {
    ToLower(ToUpper(c))
  }

  function Fold(s: string): (r: string)
    ensures |r| == |s|
  {
    if s == [] then [] else [FoldChar(s[0])] + Fold(s[1..])
  }

  /**
   * `String.compareToIgnoreCase`: the difference of the first pair of characters
   * that still differ after folding, otherwise the difference of the lengths.
   */
  function CompareIgnoreCase(a: string, b: string): int {
    if a == [] || b == [] then |a| - |b|
    else
      var u1, u2 := ToUpper(a[0]), ToUpper(b[0]);
      if a[0] != b[0] && u1 != u2 && ToLower(u1) != ToLower(u2) then ToLower(u1) as int - ToLower(u2) as int
      else CompareIgnoreCase(a[1..], b[1..])
  }

  /** Lexicographic order on character codes, a proper prefix first. */
  predicate LexLe(a: string, b: string) {
    a == [] || (b != [] && (a[0] < b[0] || (a[0] == b[0] && LexLe(a[1..], b[1..]))))
  }

  /** The order `compareToIgnoreCase(a, b) <= 0` defines. */
  predicate IgnoreCaseLe(a: string, b: string) {
    LexLe(Fold(a), Fold(b))
  }

  /** The Java comparator agrees with the folded lexicographic order. */
  lemma {:induction false} CompareIgnoreCaseSign(a: string, b: string)
    ensures CompareIgnoreCase(a, b) <= 0 <==> IgnoreCaseLe(a, b)
    ensures CompareIgnoreCase(a, b) == 0 <==> Fold(a) == Fold(b)
  {
    if a != [] && b != [] {
      CompareIgnoreCaseSign(a[1..], b[1..]);
      assert Fold(a) == [FoldChar(a[0])] + Fold(a[1..]);
      assert Fold(b) == [FoldChar(b[0])] + Fold(b[1..]);
      assert Fold(a)[1..] == Fold(a[1..]);
      assert Fold(b)[1..] == Fold(b[1..]);
      if Fold(a) == Fold(b) {
        assert Fold(a)[0] == Fold(b)[0];
      }
    } else if a != [] {
      assert Fold(a) != [];
    } else if b != [] {
      assert Fold(b) != [];
    }
  }

  /** `compareToIgnoreCase` is antisymmetric: swapping the operands negates the result. */
  lemma {:induction false} CompareIgnoreCaseAntisymmetric(a: string, b: string)
    ensures CompareIgnoreCase(a, b) == -CompareIgnoreCase(b, a)
  {
    if a != [] && b != [] {
      CompareIgnoreCaseAntisymmetric(a[1..], b[1..]);
    }
  }

  lemma {:induction false} LexLeTotal(a: string, b: string)
    ensures LexLe(a, b) || LexLe(b, a)
  {
    if a != [] && b != [] && a[0] == b[0] {
      LexLeTotal(a[1..], b[1..]);
    }
  }

  lemma {:induction false} LexLeTransitive(a: string, b: string, c: string)
    requires LexLe(a, b) && LexLe(b, c)
    ensures LexLe(a, c)
  {
    if a != [] && b != [] && c != [] && a[0] == b[0] && b[0] == c[0] {
      LexLeTransitive(a[1..], b[1..], c[1..]);
    }
  }

  lemma {:induction false} LexLeReflexive(a: string)
    ensures LexLe(a, a)
  {
    if a != [] {
      LexLeReflexive(a[1..]);
    }
  }

  lemma IgnoreCaseLeTotal(a: string, b: string)
    ensures IgnoreCaseLe(a, b) || IgnoreCaseLe(b, a)
  {
    LexLeTotal(Fold(a), Fold(b));
  }

  lemma IgnoreCaseLeTransitive(a: string, b: string, c: string)
    requires IgnoreCaseLe(a, b) && IgnoreCaseLe(b, c)
    ensures IgnoreCaseLe(a, c)
  {
    LexLeTransitive(Fold(a), Fold(b), Fold(c));
  }

  lemma IgnoreCaseLeReflexive(a: string)
    ensures IgnoreCaseLe(a, a)
  {
    LexLeReflexive(Fold(a));
  }

  // ----------------------------------------------------------- integers

  predicate IsDigit(c: char) {
    '0' <= c <= '9'
  }

  predicate AllDigits(s: string) {
    forall i :: 0 <= i < |s| ==> IsDigit(s[i])
  }

  /** The value of a run of decimal digits (leading zeros allowed). */
  function DigitsValue(s: string): nat
    requires AllDigits(s)
  {
    if s == [] then 0 else DigitsValue(s[..|s| - 1]) * 10 + (s[|s| - 1] as int - '0' as int)
  }

  function DigitChar(d: nat): char
    requires d < 10
  {
    ('0' as int + d) as char
  }

  /** `Integer.toString` of a non-negative value. */
  function NatToString(n: nat): (r: string)
    ensures |r| >= 1 && AllDigits(r)
  {
    if n < 10 then [DigitChar(n)] else NatToString(n / 10) + [DigitChar(n % 10)]
  }

  /** `Integer.toString`: a minus sign before the magnitude of a negative value. */
  function IntToString(x: int): (r: string)
    ensures |r| >= 1
    ensures x >= 0 <==> AllDigits(r)
  {
    if x < 0 then
      var r := "-" + NatToString(-x);
      assert !IsDigit(r[0]);
      r
    else NatToString(x)
  }

  lemma {:induction false} NatToStringValue(n: nat)
    ensures DigitsValue(NatToString(n)) == n
  {
    if n >= 10 {
      NatToStringValue(n / 10);
      var s := NatToString(n);
      assert s[..|s| - 1] == NatToString(n / 10);
    }
  }

  /**
   * `Integer.parseInt` on ASCII text: an optional sign, at least one digit,
   * and a value within the range of `int`; anything else is a NumberFormatException.
   */
  function JavaParseInt(s: string): (r: Option<int>)
    ensures r.Some? ==> InIntRange(r.value)
    ensures s != [] && AllDigits(s) ==> (r.Some? <==> DigitsValue(s) <= IntMax)
    ensures s != [] && AllDigits(s) && r.Some? ==> r.value == DigitsValue(s)
  {
    if s == [] then None
    else
      var body := if s[0] == '-' || s[0] == '+' then s[1..] else s;
      if body == [] || !AllDigits(body) then None
      else
        var n: int := DigitsValue(body);
        var v := if s[0] == '-' then -n else n;
        if InIntRange(v) then Some(v) else None
  }

  /** `parseInt` reads back what `toString` writes, for every `int`. */
  lemma IntToStringParses(x: int)
    requires InIntRange(x)
    ensures JavaParseInt(IntToString(x)) == Some(x)
  {
    if x < 0 {
      NegativeParses(-x);
    } else {
      NatToStringValue(x);
    }
  }

  /** A minus sign before the digits of a magnitude up to 2^31 reads back as the negated magnitude. */
  lemma NegativeParses(n: nat)
    requires 0 < n <= -IntMin
    ensures JavaParseInt("-" + NatToString(n)) == Some(-(n as int))
  {
    var digits := NatToString(n);
    var s := "-" + digits;
    NatToStringValue(n);
    assert s[0] == '-' && s[1..] == digits;
  }
}
