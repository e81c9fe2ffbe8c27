/**
 * Reading back what the repository writes: for a collection whose texts stay
 * clear of the characters the scanners stop at, `Load(Serialize(c)) == Ok(c)`.
 */
module RoundTrip {
  import opened Base
  import opened Text
  import opened Model
  import opened Scanner
  import opened Codec

  // ------------------------------------------------------------ conditions

  predicate IsLetter(c: char) {
    'a' <= c <= 'z' || 'A' <= c <= 'Z'
  }

  /** A field name: one or more ASCII letters. */
  predicate KeyName(name: string) {
    |name| > 0 && forall i :: 0 <= i < |name| ==> IsLetter(name[i])
  }

  /** Text the scanners read back verbatim: no quote (ends a value) and no brace (ends an object). */
  predicate SafeText(s: string) {
    '"' !in s && '{' !in s && '}' !in s
  }

  /** A list item additionally holds no `]` (ends the list) and no line terminator (`.` stops there). */
  predicate SafeItem(s: string) {
    SafeText(s) && ']' !in s && forall i :: 0 <= i < |s| ==> !IsLineTerminator(s[i])
  }

  /** `\d+` or `\d+\.\d+`, the numerals the rating pattern takes whole. */
  predicate IsNumeral(n: string) {
    var d := DigitRun(n);
    d > 0 && (d == |n| || (n[d] == '.' && d + 1 < |n| && AllDigits(n[d + 1..])))
  }

  predicate WellFormed(v: JsonValue) {
    match v
    case JNull => true
    case JString(s) => SafeText(s)
    case JNumber(n) => IsNumeral(n)
    case JArray(xs) => forall k :: 0 <= k < |xs| ==> SafeItem(xs[k])
  }

  /** What follows a value in the document: after it comes neither a letter nor (past blanks) a colon. */
  predicate ColonAhead(t: string) {
    var r := SkipSpaces(t);
    r != [] && r[0] == ':'
  }

  predicate Follows(t: string) {
    t != [] && !IsLetter(t[0]) && !IsDigit(t[0]) && t[0] != '.' && !ColonAhead(t)
  }

  // ----------------------------------------------------- skipping text

  /** At a quote where the pattern does not match, the search moves on to the text `t` after the quote. */
  lemma FindQuoteStep(s: string, t: string, name: string, kind: Kind)
    requires s != [] && s[0] == '"' && MatchAt(s, name, kind) == None && s[1..] == t
    ensures Find(s, name, kind) == Find(t, name, kind)
  {
    assert Find(s, name, kind) == FindAtQuote(s, name, kind);
  }

  /** At a quote where the pattern matches, the search ends. */
  lemma FindQuoteMatch(s: string, name: string, kind: Kind)
    requires s != [] && s[0] == '"' && MatchAt(s, name, kind).Some?
    ensures Find(s, name, kind) == MatchAt(s, name, kind)
  {
    assert Find(s, name, kind) == FindAtQuote(s, name, kind);
  }

  /** No field pattern can start inside text without a quote. */
  lemma {:induction false} FindSkipPlain(p: string, t: string, name: string, kind: Kind)
    requires '"' !in p
    ensures Find(p + t, name, kind) == Find(t, name, kind)
  {
    if p == [] {
      assert p + t == t;
    } else {
      assert (p + t)[0] == p[0] && p[0] in p;
      assert (p + t)[1..] == p[1..] + t;
      FindSkipPlain(p[1..], t, name, kind);
    }
  }

  /** A quoted word matches the key only if it is that very key followed by a colon. */
  lemma QuotedKey(w: string, rest: string, name: string, kind: Kind)
    requires KeyName(name) && '"' !in w
    requires w != name || !ColonAhead(rest)
    ensures MatchAt("\"" + w + "\"" + rest, name, kind) == None
  {
    var s := "\"" + w + "\"" + rest;
    var key := Quote(name);
    if |s| >= |key| && s[..|key|] == key {
      var m := if |w| < |name| then |w| else |name|;
      forall j | 0 <= j < |w| ensures w[j] != '"' {
        assert w[j] in w;
      }
      assert forall j :: 0 <= j < |name| ==> IsLetter(name[j]);
      assert s[m + 1] == key[m + 1];
      assert |w| == |name|;
      forall i | 0 <= i < |w| ensures w[i] == name[i] {
        assert s[i + 1] == key[i + 1];
      }
      assert s[|key|..] == rest;
    }
  }

  /** A lone quote followed by a non-letter cannot open the key. */
  lemma LoneQuote(rest: string, name: string, kind: Kind)
    requires KeyName(name)
    requires rest == [] || !IsLetter(rest[0])
    ensures MatchAt("\"" + rest, name, kind) == None
  {
    var s := "\"" + rest;
    var key := Quote(name);
    assert key[1] == name[0] && IsLetter(name[0]);
    if |s| >= |key| {
      assert s[..|key|][1] == rest[0];
    }
  }

  /** Skipping a quoted word where the pattern does not match. */
  lemma FindPastWord(w: string, rest: string, name: string, kind: Kind)
    requires KeyName(name) && '"' !in w
    requires rest == [] || !IsLetter(rest[0])
    requires MatchAt("\"" + w + "\"" + rest, name, kind) == None
    ensures Find("\"" + w + "\"" + rest, name, kind) == Find(rest, name, kind)
  {
    var s := "\"" + w + "\"" + rest;
    var t := "\"" + rest;
    assert Find(s, name, kind) == Find(w + t, name, kind) by {
      DropQuote(w, rest);
      FindQuoteStep(s, w + t, name, kind);
    }
    assert Find(w + t, name, kind) == Find(t, name, kind) by {
      FindSkipPlain(w, t, name, kind);
    }
    assert Find(t, name, kind) == Find(rest, name, kind) by {
      LoneQuote(rest, name, kind);
      FindQuoteStep(t, rest, name, kind);
    }
  }

  /** Skipping a quoted word that is not a key of this pattern. */
  lemma FindSkipQuoted(w: string, rest: string, name: string, kind: Kind)
    requires KeyName(name) && '"' !in w
    requires rest == [] || !IsLetter(rest[0])
    requires w != name || !ColonAhead(rest)
    ensures Find("\"" + w + "\"" + rest, name, kind) == Find(rest, name, kind)
  {
    QuotedKey(w, rest, name, kind);
    FindPastWord(w, rest, name, kind);
  }

  /** Text that starts with neither blank nor colon has no colon ahead. */
  lemma NoColonAhead(t: string)
    requires t != [] && !IsSpace(t[0]) && t[0] != ':'
    ensures !ColonAhead(t)
  {
  }

  // ----------------------------------------------------- skipping values

  /** One written item, cut where the search steps over it. */
  lemma ItemTextParts(x: string, r: string)
    ensures ItemText(x) + r == " " + ("\"" + x + "\"" + r)
  {
    var a: string := [' '];
    var q: string := ['"'];
    assert ItemText(x) == a + q + x + q;
  }

  /** The first written item, then what follows it. */
  lemma ItemsTextCons(xs: seq<string>, t: string)
    requires |xs| >= 1
    ensures ItemsText(xs) + t ==
      " " + ("\"" + xs[0] + "\"" + (if |xs| == 1 then t else "," + (ItemsText(xs[1..]) + t)))
  {
    var r := if |xs| == 1 then t else "," + (ItemsText(xs[1..]) + t);
    if |xs| > 1 {
      Regroup(ItemText(xs[0]), ",", ItemsText(xs[1..]), t);
    }
    ItemTextParts(xs[0], r);
  }

  /** The written items of a list hold no key: the search passes over them. */
  lemma {:induction false} FindSkipItems(xs: seq<string>, t: string, name: string, kind: Kind)
    requires |xs| >= 1 && KeyName(name)
    requires forall k :: 0 <= k < |xs| ==> SafeText(xs[k])
    requires t != [] && !IsLetter(t[0]) && !ColonAhead(t)
    ensures Find(ItemsText(xs) + t, name, kind) == Find(t, name, kind)
  {
    var x := xs[0];
    assert '"' !in x by { assert SafeText(xs[0]); }
    var rest := if |xs| == 1 then t else "," + (ItemsText(xs[1..]) + t);
    ItemsTextCons(xs, t);
    FindSkipPlain(" ", "\"" + x + "\"" + rest, name, kind);
    if |xs| > 1 {
      FindSkipItems(xs[1..], t, name, kind);
      NoColonAhead(rest);
      FindSkipPlain(",", ItemsText(xs[1..]) + t, name, kind);
    }
    FindSkipQuoted(x, rest, name, kind);
  }

  /** A numeral holds no quote. */
  lemma NumeralNoQuote(n: string)
    requires IsNumeral(n)
    ensures '"' !in n
  {
    var d := DigitRun(n);
    forall k | 0 <= k < |n| ensures n[k] != '"' {
      if k > d {
        assert n[d + 1..][k - d - 1] == n[k];
      }
    }
  }

  /** Skipping a written non-empty list. */
  lemma FindSkipList(xs: seq<string>, u: string, name: string, kind: Kind)
    requires |xs| >= 1 && KeyName(name)
    requires forall k :: 0 <= k < |xs| ==> SafeItem(xs[k])
    requires u != [] && !IsLetter(u[0]) && !ColonAhead(u)
    ensures Find("[" + ItemsText(xs) + " ]" + u, name, kind) == Find(u, name, kind)
  {
    var items := ItemsText(xs);
    var t := " ]" + u;
    assert "[" + items + " ]" + u == "[" + (items + t) by {
      Regroup("[", items, " ]", u);
    }
    assert Find("[" + (items + t), name, kind) == Find(items + t, name, kind) by {
      FindSkipPlain("[", items + t, name, kind);
    }
    assert Find(items + t, name, kind) == Find(t, name, kind) by {
      var blank: string := [' '];
      var close: string := [']'];
      assert t == blank + (close + u);
      SkipBlanks(blank, close + u);
      assert !ColonAhead(t);
      FindSkipItems(xs, t, name, kind);
    }
    assert Find(t, name, kind) == Find(u, name, kind) by {
      FindSkipPlain(" ]", u, name, kind);
    }
  }

  /** A written value holds no key followed by a colon: the search passes over it. */
  lemma FindSkipValue(v: JsonValue, u: string, name: string, kind: Kind)
    requires WellFormed(v) && KeyName(name)
    requires u != [] && !IsLetter(u[0]) && !ColonAhead(u)
    ensures Find(Render(v) + u, name, kind) == Find(u, name, kind)
  {
    match v
    case JNull =>
      FindSkipPlain("null", u, name, kind);
    case JNumber(n) =>
      NumeralNoQuote(n);
      FindSkipPlain(n, u, name, kind);
    case JString(s) =>
      FindSkipQuoted(s, u, name, kind);
    case JArray(xs) =>
      if xs == [] {
        FindSkipPlain("[]", u, name, kind);
      } else {
        FindSkipList(xs, u, name, kind);
      }
  }

  // ----------------------------------------------------- reading values

  /** The pattern kind that reads back a value of this form. */
  predicate Fits(v: JsonValue, kind: Kind) {
    match kind
    case TextKind => v.JNull? || v.JString?
    case IntKind => v.JNull? || (v.JNumber? && v.numeral != [] && AllDigits(v.numeral))
    case RealKind => v.JNull? || v.JNumber?
    case ListKind => v.JArray?
  }

  /** What the reader captures from a written value. */
  function Expected(v: JsonValue, kind: Kind): Option<Raw> {
    match v
    case JNull => if kind == TextKind then None else Some(Token("null"))
    case JString(s) => Some(Token(s))
    case JNumber(n) => Some(Token(n))
    case JArray(xs) => Some(Items(xs))
  }

  /** The first quote after quote-free text. */
  lemma IndexOfAfter(p: string, c: char, t: string)
    requires c !in p
    ensures IndexOf(p + [c] + t, c) == |p|
  {
    var s := p + [c] + t;
    var r := IndexOf(s, c);
    assert s[|p|] == c;
    assert forall k :: 0 <= k < |p| ==> s[k] == p[k] && s[k] != c;
  }

  /** The digit run of a numeral part ends where its digits end. */
  lemma {:induction false} DigitRunAppend(n: string, u: string)
    requires u == [] || !IsDigit(u[0]) || DigitRun(n) < |n|
    ensures DigitRun(n + u) == DigitRun(n)
  {
    if n != [] {
      assert (n + u)[0] == n[0];
      assert (n + u)[1..] == n[1..] + u;
      if IsDigit(n[0]) {
        DigitRunAppend(n[1..], u);
      }
    } else {
      assert n + u == u;
    }
  }

  lemma {:induction false} AllDigitsRun(n: string)
    requires AllDigits(n)
    ensures DigitRun(n) == |n|
  {
    if n != [] {
      assert IsDigit(n[0]);
      assert AllDigits(n[1..]) by {
        forall i | 0 <= i < |n| - 1 ensures IsDigit(n[1..][i]) { assert n[1..][i] == n[i + 1]; }
      }
      AllDigitsRun(n[1..]);
    }
  }

  lemma ValueAtText(s: string, u: string)
    requires '"' !in s
    ensures ValueAt("\"" + s + "\"" + u, TextKind) == Some(Token(s))
  {
    var v := "\"" + s + "\"" + u;
    assert v[1..] == s + ['"'] + u;
    IndexOfAfter(s, '"', u);
    assert v[1..][..|s|] == s;
  }

  lemma ValueAtNull(u: string, kind: Kind)
    requires kind != ListKind
    ensures ValueAt("null" + u, kind) == Expected(JNull, kind)
  {
    var v := "null" + u;
    assert v[0] == 'n' && v[..4] == "null";
    assert DigitRun(v) == 0;
  }

  lemma ValueAtInt(n: string, u: string)
    requires n != [] && AllDigits(n)
    requires u == [] || !IsDigit(u[0])
    ensures ValueAt(n + u, IntKind) == Some(Token(n))
  {
    AllDigitsRun(n);
    DigitRunAppend(n, u);
    assert (n + u)[..|n|] == n;
  }

  lemma ValueAtReal(n: string, u: string)
    requires IsNumeral(n)
    requires u == [] || (!IsDigit(u[0]) && u[0] != '.')
    ensures ValueAt(n + u, RealKind) == Some(Token(n))
  {
    var v := n + u;
    var d := DigitRun(n);
    DigitRunAppend(n, u);
    assert DigitRun(v) == d;
    if d == |n| {
      assert v[..d] == n;
      assert d < |v| ==> v[d] == u[0];
    } else {
      var m := n[d + 1..];
      assert v[d] == '.';
      assert v[d + 1..] == m + u;
      AllDigitsRun(m);
      DigitRunAppend(m, u);
      assert v[..d + 1 + |m|] == n;
    }
  }

  /** Text the lazy list pattern runs over: no `]` and no line terminator. */
  predicate InsideBrackets(p: string) {
    forall i :: 0 <= i < |p| ==> p[i] != ']' && !IsLineTerminator(p[i])
  }

  lemma {:induction false} BracketEndAfter(p: string, t: string)
    requires InsideBrackets(p) && t != [] && t[0] == ']'
    ensures BracketEnd(p + t) == Some(|p|)
  {
    if p == [] {
      assert p + t == t;
    } else {
      assert (p + t)[0] == p[0];
      assert (p + t)[1..] == p[1..] + t;
      BracketEndAfter(p[1..], t);
    }
  }

  lemma {:induction false} ItemsTextInside(xs: seq<string>)
    requires |xs| >= 1
    requires forall k :: 0 <= k < |xs| ==> SafeItem(xs[k])
    ensures InsideBrackets(ItemsText(xs))
  {
    var x := xs[0];
    assert SafeItem(x);
    assert InsideBrackets(ItemText(x));
    if |xs| > 1 {
      ItemsTextInside(xs[1..]);
    }
  }

  /** One quoted item after quote-free text. */
  lemma QuotedItemsStep(a: string, x: string, rest: string)
    requires '"' !in a && '"' !in x
    ensures QuotedItems(a + "\"" + x + "\"" + rest) == [x] + QuotedItems(rest)
  {
    var s := a + "\"" + x + "\"" + rest;
    assert s == a + ['"'] + (x + "\"" + rest);
    IndexOfAfter(a, '"', x + "\"" + rest);
    var u := s[|a| + 1..];
    assert u == x + ['"'] + rest;
    IndexOfAfter(x, '"', rest);
    assert u[..|x|] == x;
    assert u[|x| + 1..] == rest;
  }

  /** One written item between the text before it and the text after it. */
  lemma ItemBetween(p: string, x: string, t: string)
    ensures p + ItemText(x) + t == (p + " ") + "\"" + x + "\"" + t
  {
    var a: string := [' '];
    var q: string := ['"'];
    assert ItemText(x) == a + q + x + q;
  }

  /** A single written item, then quote-free text. */
  lemma QuotedItemsLast(p: string, xs: seq<string>, t: string)
    requires '"' !in p && '"' !in t && |xs| == 1 && '"' !in xs[0]
    ensures QuotedItems(p + ItemsText(xs) + t) == xs
  {
    var x := xs[0];
    assert ItemsText(xs) == ItemText(x);
    ItemBetween(p, x, t);
    QuotedItemsStep(p + " ", x, t);
    assert QuotedItems(t) == [] by {
      assert IndexOf(t, '"') < 0;
    }
  }

  /** The first of several written items, then the text after it. */
  lemma QuotedItemsMore(p: string, xs: seq<string>, t: string)
    requires '"' !in p && |xs| >= 2 && '"' !in xs[0]
    ensures QuotedItems(p + ItemsText(xs) + t) == [xs[0]] + QuotedItems("," + ItemsText(xs[1..]) + t)
  {
    var x := xs[0];
    var tail := ItemsText(xs[1..]);
    var rest := "," + tail + t;
    assert ItemsText(xs) == ItemText(x) + "," + tail;
    assert p + ItemsText(xs) + t == p + ItemText(x) + rest by {
      Regroup(p + ItemText(x), ",", tail, t);
      Regroup(p, ItemText(x), ",", tail + t);
      Regroup(p, ItemText(x), "," + tail, t);
    }
    ItemBetween(p, x, rest);
    QuotedItemsStep(p + " ", x, rest);
  }

  /** The quoted items of the written list text are the items themselves. */
  lemma {:induction false} QuotedItemsText(p: string, xs: seq<string>, t: string)
    requires '"' !in p && '"' !in t && |xs| >= 1
    requires forall k :: 0 <= k < |xs| ==> '"' !in xs[k]
    ensures QuotedItems(p + ItemsText(xs) + t) == xs
    decreases |xs|
  {
    if |xs| == 1 {
      QuotedItemsLast(p, xs, t);
    } else {
      var ys := xs[1..];
      var rest := "," + ItemsText(ys) + t;
      assert QuotedItems(p + ItemsText(xs) + t) == [xs[0]] + QuotedItems(rest) by {
        QuotedItemsMore(p, xs, t);
      }
      assert QuotedItems(rest) == ys by {
        assert forall k :: 0 <= k < |ys| ==> '"' !in ys[k] by {
          forall k | 0 <= k < |ys| ensures '"' !in ys[k] {
            assert ys[k] == xs[k + 1];
          }
        }
        QuotedItemsText(",", ys, t);
      }
      HeadTail(QuotedItems(p + ItemsText(xs) + t), QuotedItems(rest), xs);
    }
  }

  /** The list pattern over `[`, text free of `]` and line terminators, then `]`: the quoted items of that text. */
  lemma ValueAtBrackets(open: string, body: string, tail: string)
    requires open == "[" && InsideBrackets(body) && tail != [] && tail[0] == ']'
    ensures ValueAt(open + (body + tail), ListKind) == Some(Items(QuotedItems(body)))
  {
    var v := open + (body + tail);
    assert v[0] == '[';
    assert v[1..] == body + tail;
    BracketEndAfter(body, tail);
    assert (body + tail)[..|body|] == body;
  }

  lemma ValueAtEmptyList(u: string)
    ensures ValueAt(Render(JArray([])) + u, ListKind) == Some(Items([]))
  {
    assert Render(JArray([])) + u == "[" + ("" + ("]" + u));
    ValueAtBrackets("[", "", "]" + u);
    assert QuotedItems("") == [];
  }

  lemma ValueAtItems(xs: seq<string>, u: string)
    requires xs != []
    requires forall k :: 0 <= k < |xs| ==> SafeItem(xs[k])
    ensures ValueAt(Render(JArray(xs)) + u, ListKind) == Some(Items(xs))
  {
    var items := ItemsText(xs);
    var body := items + " ";
    assert Render(JArray(xs)) + u == "[" + (body + ("]" + u)) by {
      Regroup("[", items, " ]", u);
      assert " ]" + u == " " + ("]" + u);
    }
    assert ValueAt("[" + (body + ("]" + u)), ListKind) == Some(Items(QuotedItems(body))) by {
      ItemsTextInside(xs);
      ValueAtBrackets("[", body, "]" + u);
    }
    assert QuotedItems(body) == xs by {
      NoPrefix("", items);
      QuotedItemsText("", xs, " ");
    }
  }

  lemma ValueAtList(xs: seq<string>, u: string)
    requires forall k :: 0 <= k < |xs| ==> SafeItem(xs[k])
    ensures ValueAt(Render(JArray(xs)) + u, ListKind) == Some(Items(xs))
  {
    if xs == [] {
      ValueAtEmptyList(u);
    } else {
      ValueAtItems(xs, u);
    }
  }

  /** A written value read back by the pattern of its kind, whatever follows the line. */
  lemma ValueAtRender(v: JsonValue, kind: Kind, u: string)
    requires WellFormed(v) && Fits(v, kind)
    requires u != [] && (u[0] == ',' || u[0] == '\n')
    ensures ValueAt(Render(v) + u, kind) == Expected(v, kind)
  {
    match v
    case JNull => ValueAtNull(u, kind);
    case JString(s) => ValueAtText(s, u);
    case JNumber(n) =>
      if kind == IntKind {
        ValueAtInt(n, u);
      } else {
        ValueAtReal(n, u);
      }
    case JArray(xs) => ValueAtList(xs, u);
  }

  // ----------------------------------------------------------- one line

  /** The text a line leaves for the search when it does not hold the answer. */
  lemma FindLineRest(v: JsonValue, comma: bool, t: string, key: string, kind: Kind)
    requires KeyName(key) && WellFormed(v)
    requires !ColonAhead(LineEnd(comma) + t)
    ensures Find(" : " + Render(v) + (LineEnd(comma) + t), key, kind) == Find(t, key, kind)
  {
    var u := LineEnd(comma) + t;
    assert " : " + Render(v) + u == " : " + (Render(v) + u);
    FindSkipPlain(" : ", Render(v) + u, key, kind);
    assert u[0] == ',' || u[0] == '\n';
    FindSkipValue(v, u, key, kind);
    FindSkipPlain(LineEnd(comma), t, key, kind);
  }

  /** The pattern at a quoted key: what follows the key decides. */
  lemma MatchAtKey(key: string, after: string, kind: Kind)
    ensures MatchAt(Quote(key) + after, key, kind) ==
      var r := SkipSpaces(after);
      if r == [] || r[0] != ':' then None else ValueAt(SkipSpaces(r[1..]), kind)
  {
    var q := Quote(key);
    assert (q + after)[..|q|] == q && (q + after)[|q|..] == after;
  }

  /** One blank before `t` is passed over. */
  lemma SkipOne(sp: string, t: string)
    requires |sp| == 1 && IsSpace(sp[0])
    ensures SkipSpaces(sp + t) == SkipSpaces(t)
  {
    assert (sp + t)[0] == sp[0];
    assert (sp + t)[1..] == t;
  }

  /** A colon between two single blanks is passed over by `\s*:\s*`. */
  lemma SkipColon(sp: string, co: string, w: string)
    requires |sp| == 1 && sp[0] == ' ' && |co| == 1 && co[0] == ':'
    requires w != [] && !IsSpace(w[0])
    ensures var r := SkipSpaces(sp + co + sp + w); r != [] && r[0] == ':' && SkipSpaces(r[1..]) == w
  {
    var r := co + (sp + w);
    assert sp + co + sp + w == sp + r;
    assert SkipSpaces(sp + r) == r by {
      SkipOne(sp, r);
      assert r[0] == co[0];
    }
    assert r[1..] == sp + w;
    SkipOne(sp, w);
  }

  /** The separator the writer puts between key and value. */
  lemma SpacedColon(w: string)
    requires w != [] && !IsSpace(w[0])
    ensures var r := SkipSpaces(" : " + w); r != [] && r[0] == ':' && SkipSpaces(r[1..]) == w
  {
    assert " : " + w == " " + ":" + " " + w;
    SkipColon(" ", ":", w);
  }

  /** The key, the colon the writer puts after it, and the value's text. */
  lemma MatchKeyColon(key: string, w: string, kind: Kind)
    requires w != [] && !IsSpace(w[0])
    ensures MatchAt("\"" + key + "\"" + (" : " + w), key, kind) == ValueAt(w, kind)
  {
    assert "\"" + key + "\"" + (" : " + w) == Quote(key) + (" : " + w);
    MatchAtKey(key, " : " + w, kind);
    SpacedColon(w);
  }

  /** The search on the line of its own key: what the value gives, if anything. */
  lemma MatchOwnLine(v: JsonValue, u: string, key: string, kind: Kind)
    requires WellFormed(v) && Fits(v, kind)
    requires u != [] && (u[0] == ',' || u[0] == '\n')
    ensures MatchAt("\"" + key + "\"" + (" : " + Render(v) + u), key, kind) == Expected(v, kind)
  {
    var w := Render(v) + u;
    assert Render(v) != [] && !IsSpace(Render(v)[0]) by {
      if v.JNumber? {
        assert IsDigit(v.numeral[0]);
      }
    }
    assert w[0] == Render(v)[0];
    assert " : " + Render(v) + u == " : " + w;
    MatchKeyColon(key, w, kind);
    ValueAtRender(v, kind, u);
  }

  /** A field line, cut where the search steps over it. */
  lemma FieldLineParts(name: string, v: JsonValue, comma: bool, t: string)
    ensures FieldLine(name, v, comma) + t ==
      "    " + ("\"" + name + "\"" + (" : " + Render(v) + (LineEnd(comma) + t)))
  {
    var a: string, q: string, c: string := "    ", "\"", " : ";
    var cm: string, nl: string := if comma then "," else "", "\n";
    assert "    \"" == a + q && "\" : " == q + c;
    assert FieldLine(name, v, comma) == (a + q) + name + (q + c) + Render(v) + cm + nl;
    assert LineEnd(comma) == cm + nl;
    LineRegroup(a, q, name, c, Render(v), cm, nl, t);
  }

  /** The quoted key of the line, then the rest of the line, when it is not the key searched for. */
  lemma FindOtherKey(name: string, rest: string, key: string, kind: Kind)
    requires KeyName(name) && KeyName(key) && name != key
    requires rest == [] || !IsLetter(rest[0])
    ensures Find("\"" + name + "\"" + rest, key, kind) == Find(rest, key, kind)
  {
    assert '"' !in name by {
      forall j | 0 <= j < |name| ensures name[j] != '"' { assert IsLetter(name[j]); }
    }
    FindSkipQuoted(name, rest, key, kind);
  }

  /** The quoted key of the line, when it is the key searched for. */
  lemma FindOwnKey(v: JsonValue, u: string, key: string, kind: Kind)
    requires KeyName(key) && WellFormed(v) && Fits(v, kind)
    requires u != [] && (u[0] == ',' || u[0] == '\n')
    ensures Find("\"" + key + "\"" + (" : " + Render(v) + u), key, kind) ==
      if Expected(v, kind).Some? then Expected(v, kind) else Find(" : " + Render(v) + u, key, kind)
  {
    var rest := " : " + Render(v) + u;
    var s := "\"" + key + "\"" + rest;
    MatchOwnLine(v, u, key, kind);
    if Expected(v, kind).None? {
      assert '"' !in key by {
        forall j | 0 <= j < |key| ensures key[j] != '"' { assert IsLetter(key[j]); }
      }
      FindPastWord(key, rest, key, kind);
    } else {
      FindQuoteMatch(s, key, kind);
    }
  }

  /**
   * The search over one written field line: the line of the key itself gives
   * its value when the pattern takes it; every other line is passed over.
   */
  lemma FindLine(name: string, v: JsonValue, comma: bool, t: string, key: string, kind: Kind)
    requires KeyName(name) && KeyName(key) && WellFormed(v)
    requires name == key ==> Fits(v, kind)
    requires !ColonAhead(LineEnd(comma) + t)
    ensures Find(FieldLine(name, v, comma) + t, key, kind) ==
      if name == key && Expected(v, kind).Some? then Expected(v, kind) else Find(t, key, kind)
  {
    var u := LineEnd(comma) + t;
    var rest := " : " + Render(v) + u;
    FieldLineParts(name, v, comma, t);
    FindSkipPlain("    ", "\"" + name + "\"" + rest, key, kind);
    FindLineRest(v, comma, t, key, kind);
    if name != key {
      FindOtherKey(name, rest, key, kind);
    } else {
      assert u[0] == ',' || u[0] == '\n';
      FindOwnKey(v, u, key, kind);
    }
  }

  // ------------------------------------------------------ the field lines

  /** What the search finds among written fields: the first line of the key whose value the pattern takes. */
  function Lookup(fs: seq<(string, JsonValue)>, key: string, kind: Kind): Option<Raw> {
    if fs == [] then None
    else if fs[0].0 == key && Expected(fs[0].1, kind).Some? then Expected(fs[0].1, kind)
    else Lookup(fs[1..], key, kind)
  }

  predicate WrittenFields(fs: seq<(string, JsonValue)>) {
    forall k :: 0 <= k < |fs| ==> KeyName(fs[k].0) && WellFormed(fs[k].1)
  }

  lemma LinesCons(fs: seq<(string, JsonValue)>, t: string)
    requires fs != []
    ensures Lines(fs) + t == FieldLine(fs[0].0, fs[0].1, |fs| > 1) + (Lines(fs[1..]) + t)
  {
  }

  /** The search over the field lines gives what `Lookup` says, or goes on past them. */
  lemma {:induction false} FindLines(fs: seq<(string, JsonValue)>, t: string, key: string, kind: Kind)
    requires WrittenFields(fs) && KeyName(key)
    requires forall k :: 0 <= k < |fs| && fs[k].0 == key ==> Fits(fs[k].1, kind)
    requires !ColonAhead(LineEnd(false) + t)
    ensures Find(Lines(fs) + t, key, kind) ==
      if Lookup(fs, key, kind).Some? then Lookup(fs, key, kind) else Find(t, key, kind)
  {
    if fs == [] {
      assert Lines(fs) + t == t;
    } else {
      var more := Lines(fs[1..]) + t;
      LinesCons(fs, t);
      assert Find(more, key, kind) ==
        if Lookup(fs[1..], key, kind).Some? then Lookup(fs[1..], key, kind) else Find(t, key, kind) by {
        assert forall k :: 0 <= k < |fs| - 1 ==> fs[1..][k] == fs[k + 1];
        FindLines(fs[1..], t, key, kind);
      }
      assert !ColonAhead(LineEnd(|fs| > 1) + more) by {
        if |fs| > 1 {
          NoColonAhead(LineEnd(true) + more);
        } else {
          assert more == t;
        }
      }
      FindLine(fs[0].0, fs[0].1, |fs| > 1, more, key, kind);
    }
  }

  /** Only the line of its own key can answer the search for a key written once. */
  lemma {:induction false} LookupAt(fs: seq<(string, JsonValue)>, i: nat, key: string, kind: Kind)
    requires i < |fs| && fs[i].0 == key
    requires forall j :: 0 <= j < |fs| && j != i ==> fs[j].0 != key
    ensures Lookup(fs, key, kind) == Expected(fs[i].1, kind)
  {
    if i == 0 {
      if Expected(fs[0].1, kind).None? {
        LookupAbsent(fs[1..], key, kind);
      }
    } else {
      LookupAt(fs[1..], i - 1, key, kind);
    }
  }

  lemma {:induction false} LookupAbsent(fs: seq<(string, JsonValue)>, key: string, kind: Kind)
    requires forall j :: 0 <= j < |fs| ==> fs[j].0 != key
    ensures Lookup(fs, key, kind) == None
  {
    if fs != [] {
      LookupAbsent(fs[1..], key, kind);
    }
  }

  // ------------------------------------------------------------ one entry

  /** The field names in the order they are written. */
  const Names: seq<string> := [TitleKey, DeveloperKey, PublisherKey, GenresKey, PlatformsKey,
    TranslatorsKey, SteamIdKey, ReleaseYearKey, LanguageKey, RatingKey, TagsKey,
    CoverImagePathKey, DescriptionPathKey]

  lemma NamesDistinct()
    ensures |Names| == 13
    ensures forall i, j :: 0 <= i < j < |Names| ==> Names[i] != Names[j]
  {
  }

  /** A text field the reader gives back: absent, or safe text other than "null". */
  predicate SafeValue(x: Option<string>) {
    x.None? || (SafeText(x.value) && x.value != "null")
  }

  predicate SafeItems(xs: seq<string>) {
    forall k :: 0 <= k < |xs| ==> SafeItem(xs[k])
  }

  /** A number field the reader gives back: absent, or an `int` written without a sign. */
  predicate SafeNumber(x: Option<int>) {
    x.None? || 0 <= x.value <= IntMax
  }

  /** An entry whose written object reads back as itself. */
  predicate SafeEntry(e: Entry) {
    && SafeValue(e.title) && SafeValue(e.developer) && SafeValue(e.publisher)
    && SafeItems(e.genres) && SafeItems(e.platforms) && SafeItems(e.translators)
    && SafeNumber(e.steamId) && SafeNumber(e.releaseYear)
    && SafeValue(e.language) && (e.rating.None? || IsNumeral(e.rating.value))
    && SafeItems(e.tags) && SafeValue(e.coverImagePath) && SafeValue(e.descriptionPath)
  }

  /** The brace object the game pattern matches in an entry's text. */
  function Body(e: Entry): string {
    "{\n" + Lines(Fields(e)) + "\n  }"
  }

  lemma CreditKeys()
    ensures KeyName(TitleKey) && KeyName(DeveloperKey) && KeyName(PublisherKey) && KeyName(GenresKey)
  {
  }

  lemma NumberKeys()
    ensures KeyName(PlatformsKey) && KeyName(TranslatorsKey) && KeyName(SteamIdKey) && KeyName(ReleaseYearKey)
  {
  }

  lemma DetailKeys()
    ensures KeyName(LanguageKey) && KeyName(RatingKey) && KeyName(TagsKey)
    ensures KeyName(CoverImagePathKey) && KeyName(DescriptionPathKey)
  {
  }

  /** Every key is a run of letters. */
  lemma NamesAreKeys()
    ensures forall k :: 0 <= k < |Names| ==> KeyName(Names[k])
  {
    CreditKeys();
    NumberKeys();
    DetailKeys();
    Each13(Names, KeyName);
  }

  /** The fields carry the keys in the order of `Names`. */
  lemma FieldNames(e: Entry)
    ensures forall k :: 0 <= k < 13 ==> Fields(e)[k].0 == Names[k]
  {
    FieldsAt(e);
  }

  /** A number the reader gives back is written as a numeral. */
  lemma IntWellFormed(x: Option<int>)
    requires SafeNumber(x)
    ensures WellFormed(IntValue(x))
  {
    if x.Some? {
      var n := IntToString(x.value);
      AllDigitsRun(n);
    }
  }

  /** A text the reader gives back is writable. */
  lemma TextWellFormed(x: Option<string>)
    requires SafeValue(x)
    ensures WellFormed(TextValue(x))
  {
  }

  predicate ValueWellFormed(field: (string, JsonValue)) {
    WellFormed(field.1)
  }

  /** The values of an entry the reader gives back are all writable. */
  lemma ValuesWellFormed(e: Entry)
    requires SafeEntry(e)
    ensures forall k :: 0 <= k < 13 ==> WellFormed(Fields(e)[k].1)
  {
    FieldsAt(e);
    TextWellFormed(e.title);
    TextWellFormed(e.developer);
    TextWellFormed(e.publisher);
    IntWellFormed(e.steamId);
    IntWellFormed(e.releaseYear);
    TextWellFormed(e.language);
    TextWellFormed(e.coverImagePath);
    TextWellFormed(e.descriptionPath);
    Each13(Fields(e), ValueWellFormed);
  }

  lemma FieldsWritten(e: Entry)
    requires SafeEntry(e)
    ensures WrittenFields(Fields(e))
    ensures forall k :: 0 <= k < 13 ==> Fields(e)[k].0 == Names[k]
  {
    FieldNames(e);
    NamesAreKeys();
    ValuesWellFormed(e);
  }

  /** Blanks before `t` are passed over. */
  lemma {:induction false} SkipBlanks(b: string, t: string)
    requires forall i :: 0 <= i < |b| ==> IsSpace(b[i])
    ensures SkipSpaces(b + t) == SkipSpaces(t)
  {
    if b != [] {
      assert (b + t)[0] == b[0];
      assert (b + t)[1..] == b[1..] + t;
      SkipBlanks(b[1..], t);
    } else {
      assert b + t == t;
    }
  }

  /** What closes an object leaves no colon ahead of the last line's value. */
  lemma CloseNoColon()
    ensures !ColonAhead(LineEnd(false) + "\n  }")
  {
    var b: string := ['\n', '\n', ' ', ' '];
    var close: string := ['}'];
    assert LineEnd(false) + "\n  }" == b + close;
    SkipBlanks(b, close);
  }

  /** The search for a field written once among the lines of an object. */
  lemma FindInObject(fs: seq<(string, JsonValue)>, i: nat, kind: Kind)
    requires WrittenFields(fs) && i < |fs|
    requires forall j :: 0 <= j < |fs| && j != i ==> fs[j].0 != fs[i].0
    requires Fits(fs[i].1, kind)
    ensures Find("{\n" + Lines(fs) + "\n  }", fs[i].0, kind) == Expected(fs[i].1, kind)
  {
    var key := fs[i].0;
    var t := "\n  }";
    assert "{\n" + Lines(fs) + t == "{\n" + (Lines(fs) + t);
    FindSkipPlain("{\n", Lines(fs) + t, key, kind);
    CloseNoColon();
    FindLines(fs, t, key, kind);
    LookupAt(fs, i, key, kind);
    assert Find(t, key, kind) == None by {
      FindSkipPlain(t, [], key, kind);
      assert t + [] == t;
    }
  }

  /** The search for one field in an entry's object gives the value written for it. */
  lemma FindField(e: Entry, i: nat, kind: Kind)
    requires SafeEntry(e) && i < 13
    requires Fits(Fields(e)[i].1, kind)
    ensures Find(Body(e), Names[i], kind) == Expected(Fields(e)[i].1, kind)
  {
    FieldsWritten(e);
    NamesDistinct();
    FindInObject(Fields(e), i, kind);
  }

  lemma ReadBackText(e: Entry, i: nat, name: string, x: Option<string>)
    requires SafeEntry(e) && i < 13
    requires Fields(e)[i] == (name, TextValue(x)) && SafeValue(x)
    ensures ExtractText(Body(e), name) == x
  {
    FieldNames(e);
    FindField(e, i, TextKind);
  }

  lemma ReadBackList(e: Entry, i: nat, name: string, xs: seq<string>)
    requires SafeEntry(e) && i < 13
    requires Fields(e)[i] == (name, JArray(xs))
    ensures ListOrEmpty(ExtractList(Body(e), name)) == xs
  {
    FieldNames(e);
    FindField(e, i, ListKind);
  }

  lemma ReadBackInt(e: Entry, i: nat, name: string, x: Option<int>)
    requires SafeEntry(e) && i < 13
    requires Fields(e)[i] == (name, IntValue(x)) && SafeNumber(x)
    ensures ExtractInt(Body(e), name) == Ok(x)
  {
    if x.Some? {
      IntToStringParses(x.value);
    }
    FieldNames(e);
    FindField(e, i, IntKind);
  }

  lemma ReadBackRating(e: Entry)
    requires SafeEntry(e)
    ensures ExtractRating(Body(e)) == e.rating
  {
    FieldsAt(e);
    FieldNames(e);
    FindField(e, 9, RealKind);
  }

  /** `parseGameFromJson` gives the entry whose every field its extractor reads back. */
  lemma ParseEntryFrom(json: string, e: Entry)
    requires ExtractText(json, TitleKey) == e.title && ExtractText(json, DeveloperKey) == e.developer
    requires ExtractText(json, PublisherKey) == e.publisher
    requires ListOrEmpty(ExtractList(json, GenresKey)) == e.genres
    requires ListOrEmpty(ExtractList(json, PlatformsKey)) == e.platforms
    requires ListOrEmpty(ExtractList(json, TranslatorsKey)) == e.translators
    requires ExtractInt(json, SteamIdKey) == Ok(e.steamId) && ExtractInt(json, ReleaseYearKey) == Ok(e.releaseYear)
    requires ExtractText(json, LanguageKey) == e.language && ExtractRating(json) == e.rating
    requires ListOrEmpty(ExtractList(json, TagsKey)) == e.tags
    requires ExtractText(json, CoverImagePathKey) == e.coverImagePath
    requires ExtractText(json, DescriptionPathKey) == e.descriptionPath
    ensures ParseEntry(json) == Ok(e)
  {
  }

  /** An entry's written object reads back as that entry. */
  lemma ParseEntryBody(e: Entry)
    requires SafeEntry(e)
    ensures ParseEntry(Body(e)) == Ok(e)
  {
    FieldsAt(e);
    ReadBackText(e, 0, TitleKey, e.title);
    ReadBackText(e, 1, DeveloperKey, e.developer);
    ReadBackText(e, 2, PublisherKey, e.publisher);
    ReadBackList(e, 3, GenresKey, e.genres);
    ReadBackList(e, 4, PlatformsKey, e.platforms);
    ReadBackList(e, 5, TranslatorsKey, e.translators);
    ReadBackInt(e, 6, SteamIdKey, e.steamId);
    ReadBackInt(e, 7, ReleaseYearKey, e.releaseYear);
    ReadBackText(e, 8, LanguageKey, e.language);
    ReadBackRating(e);
    ReadBackList(e, 10, TagsKey, e.tags);
    ReadBackText(e, 11, CoverImagePathKey, e.coverImagePath);
    ReadBackText(e, 12, DescriptionPathKey, e.descriptionPath);
    ParseEntryFrom(Body(e), e);
  }

  // ------------------------------------------------------------ objects

  predicate BraceFree(s: string) {
    '{' !in s && '}' !in s
  }

  lemma {:induction false} ItemsTextBraceFree(xs: seq<string>)
    requires |xs| >= 1 && SafeItems(xs)
    ensures BraceFree(ItemsText(xs))
  {
    assert SafeItem(xs[0]);
    if |xs| > 1 {
      ItemsTextBraceFree(xs[1..]);
    }
  }

  /** A written numeral holds no brace. */
  lemma NumeralBraceFree(n: string)
    requires IsNumeral(n)
    ensures BraceFree(n)
  {
    NumeralNoQuote(n);
    var d := DigitRun(n);
    forall k | 0 <= k < |n| ensures n[k] != '{' && n[k] != '}' {
      if k > d {
        assert n[d + 1..][k - d - 1] == n[k];
      }
    }
  }

  /** A written value holds no brace. */
  lemma ValueBraceFree(v: JsonValue)
    requires WellFormed(v)
    ensures BraceFree(Render(v))
  {
    match v
    case JNumber(n) =>
      NumeralBraceFree(n);
    case JArray(xs) =>
      if xs != [] {
        ItemsTextBraceFree(xs);
        AroundBraceFree("[", ItemsText(xs), " ]");
      }
    case _ =>
  }

  lemma LineBraceFree(name: string, v: JsonValue, comma: bool)
    requires KeyName(name) && WellFormed(v)
    ensures BraceFree(FieldLine(name, v, comma))
  {
    assert BraceFree(name) by {
      assert forall j :: 0 <= j < |name| ==> IsLetter(name[j]);
    }
    ValueBraceFree(v);
    var a: string, c: string, e: string := "    \"", "\" : ", if comma then ",\n" else "\n";
    assert FieldLine(name, v, comma) == a + name + c + Render(v) + e;
    AroundBraceFree(a, name, c);
    AroundBraceFree(a + name + c, Render(v), e);
  }

  lemma {:induction false} LinesBraceFree(fs: seq<(string, JsonValue)>)
    requires WrittenFields(fs)
    ensures BraceFree(Lines(fs))
  {
    if fs != [] {
      LineBraceFree(fs[0].0, fs[0].1, |fs| > 1);
      LinesBraceFree(fs[1..]);
    }
  }

  /** The object pattern runs over brace-free text to the first closing brace. */
  lemma {:induction false} ObjectRestPlain(s: string, i: nat, k: nat)
    requires i <= k < |s| && s[k] == '}'
    requires forall j :: i <= j < k ==> s[j] != '{' && s[j] != '}'
    ensures ObjectRest(s, i, 0) == Some(k + 1)
    decreases k - i
  {
    if i < k {
      ObjectRestPlain(s, i + 1, k);
    }
  }

  /** Text before the first opening brace holds no object. */
  lemma {:induction false} ObjectsSkip(p: string, t: string)
    requires '{' !in p
    ensures Objects(p + t) == Objects(t)
  {
    if p != [] {
      assert (p + t)[0] == p[0] && p[0] in p;
      assert (p + t)[1..] == p[1..] + t;
      ObjectsSkip(p[1..], t);
    } else {
      assert p + t == t;
    }
  }

  /** A brace object with no brace inside. */
  predicate IsObject(b: string) {
    |b| >= 2 && b[0] == '{' && b[|b| - 1] == '}' && BraceFree(b[1..|b| - 1])
  }

  /** An object is matched whole, and the search goes on after it. */
  lemma ObjectsObject(b: string, t: string)
    requires IsObject(b)
    ensures Objects(b + t) == [b] + Objects(t)
  {
    var s := b + t;
    var inner := b[1..|b| - 1];
    forall j | 1 <= j < |b| - 1 ensures s[j] != '{' && s[j] != '}' {
      assert s[j] == inner[j - 1];
    }
    ObjectRestPlain(s, 1, |b| - 1);
    assert s[..|b|] == b && s[|b|..] == t;
  }

  /** Brace-free text between an opening and a closing brace is an object. */
  lemma WrappedObject(open: string, inner: string, close: string)
    requires open == "{" && close == "}" && BraceFree(inner)
    ensures IsObject(open + inner + close)
  {
    var b := open + inner + close;
    assert b[1..|b| - 1] == inner;
  }

  /** The line breaks and indentation around the field lines hold no brace. */
  lemma AroundBraceFree(pre: string, lines: string, post: string)
    requires BraceFree(pre) && BraceFree(lines) && BraceFree(post)
    ensures BraceFree(pre + lines + post)
  {
  }

  /** The object written around field lines that hold no brace. */
  lemma LinesObject(fs: seq<(string, JsonValue)>)
    requires WrittenFields(fs)
    ensures IsObject("{\n" + Lines(fs) + "\n  }")
  {
    var lines := Lines(fs);
    assert BraceFree(lines) by {
      LinesBraceFree(fs);
    }
    var inner := "\n" + lines + "\n  ";
    assert BraceFree(inner) by {
      AroundBraceFree("\n", lines, "\n  ");
    }
    assert "{\n" + lines + "\n  }" == "{" + inner + "}" by {
      Regroup("{", "\n", lines, "\n  }");
      Regroup("{", "\n" + lines, "\n  ", "}");
    }
    WrappedObject("{", inner, "}");
  }

  lemma BodyIsObject(e: Entry)
    requires SafeEntry(e)
    ensures IsObject(Body(e))
  {
    FieldsWritten(e);
    LinesObject(Fields(e));
  }

  /** The indentation in front of an object's opening line. */
  lemma Indented(lines: string)
    ensures "  {\n" + lines + "\n  }" == "  " + ("{\n" + lines + "\n  }")
  {
    var sp: string, open: string, close: string := "  ", "{\n", "\n  }";
    assert "  {\n" == sp + open;
    assert (sp + open) + lines + close == sp + (open + lines + close);
  }

  lemma EntryJsonBody(e: Entry)
    ensures EntryJson(e) == "  " + Body(e)
  {
    Indented(Lines(Fields(e)));
  }

  // ---------------------------------------------------------- the document

  /** The objects of the entries' texts, in order. */
  function Bodies(es: seq<Entry>): (r: seq<string>)
    ensures |r| == |es| && forall k :: 0 <= k < |es| ==> r[k] == Body(es[k])
  {
    if es == [] then [] else [Body(es[0])] + Bodies(es[1..])
  }

  /** Objects that each parse give the list of their entries. */
  lemma {:induction false} ParseAllOk(objects: seq<string>, es: seq<Entry>)
    requires |objects| == |es|
    requires forall k :: 0 <= k < |es| ==> ParseEntry(objects[k]) == Ok(es[k])
    ensures ParseAll(objects) == Ok(es)
  {
    if es != [] {
      ParseAllOk(objects[1..], es[1..]);
      assert es == [es[0]] + es[1..];
    }
  }

  lemma JoinEntriesCons(parts: seq<string>, t: string)
    requires |parts| > 1
    ensures JoinEntries(parts) + t == parts[0] + (",\n" + (JoinEntries(parts[1..]) + t))
  {
  }

  /** Texts that are each an indented object, joined, then brace-free text: the objects, in order. */
  lemma {:induction false} ObjectsJoined(parts: seq<string>, objects: seq<string>, t: string)
    requires parts != [] && |parts| == |objects|
    requires forall k :: 0 <= k < |parts| ==> parts[k] == "  " + objects[k] && IsObject(objects[k])
    requires '{' !in t
    ensures Objects(JoinEntries(parts) + t) == objects
  {
    var b := objects[0];
    assert parts[0] == "  " + b && IsObject(b);
    if |parts| == 1 {
      assert JoinEntries(parts) + t == "  " + (b + t);
      ObjectsSkip("  ", b + t);
      ObjectsObject(b, t);
      ObjectsSkip(t, []);
      assert t + [] == t;
    } else {
      var more := JoinEntries(parts[1..]) + t;
      JoinEntriesCons(parts, t);
      assert JoinEntries(parts) + t == "  " + (b + (",\n" + more));
      ObjectsSkip("  ", b + (",\n" + more));
      ObjectsObject(b, ",\n" + more);
      ObjectsSkip(",\n", more);
      ObjectsJoined(parts[1..], objects[1..], t);
      assert objects == [b] + objects[1..];
    }
  }

  /** The document of no entries holds no object. */
  lemma EmptyDocument()
    ensures Objects("[\n" + JoinEntries([]) + "\n]") == []
  {
    assert "[\n" + JoinEntries([]) + "\n]" == "[\n\n]" + [];
    ObjectsSkip("[\n\n]", []);
  }

  /** The document around joined objects: the objects, in order. */
  lemma DocumentObjects(parts: seq<string>, objects: seq<string>)
    requires parts != [] && |parts| == |objects|
    requires forall k :: 0 <= k < |parts| ==> parts[k] == "  " + objects[k] && IsObject(objects[k])
    ensures Objects("[\n" + JoinEntries(parts) + "\n]") == objects
  {
    var joined := JoinEntries(parts);
    var open, close := "[\n", "\n]";
    assert open + joined + close == open + (joined + close);
    ObjectsSkip(open, joined + close);
    ObjectsJoined(parts, objects, close);
  }

  /**
   * What `saveGames` writes, `loadGames` reads back: the same entries in the
   * same order, provided their texts avoid the characters the patterns stop
   * at, no text is literally "null" and no number is negative.
   */
  lemma LoadSerialize(es: seq<Entry>)
    requires forall k :: 0 <= k < |es| ==> SafeEntry(es[k])
    ensures Load(Serialize(es)) == Ok(es)
  {
    var parts := EntryTexts(es);
    var objects := Bodies(es);
    forall k | 0 <= k < |es|
      ensures parts[k] == "  " + objects[k] && IsObject(objects[k])
      ensures ParseEntry(objects[k]) == Ok(es[k])
    {
      EntryJsonBody(es[k]);
      BodyIsObject(es[k]);
      ParseEntryBody(es[k]);
    }
    assert Objects(Serialize(es)) == objects by {
      if es == [] {
        EmptyDocument();
      } else {
        DocumentObjects(parts, objects);
      }
    }
    ParseAllOk(objects, es);
  }

  /** A document without an opening brace (an empty file, `[]`) loads as no entries. */
  lemma LoadNoObjects(content: string)
    requires '{' !in content
    ensures Load(content) == Ok([])
  {
    ObjectsSkip(content, []);
    assert content + [] == content;
  }

  // -------------------------------------------------------- proof helpers
  // Sequence algebra the proofs above rely on; none of it stands for source code.

  lemma DropQuote(w: string, rest: string)
    ensures ("\"" + w + "\"" + rest)[1..] == w + ("\"" + rest)
  {
  }

  lemma NoPrefix(a: string, b: string)
    requires a == []
    ensures a + b == b
  {
  }

  lemma Regroup(a: string, b: string, c: string, d: string)
    ensures a + b + c + d == a + (b + (c + d))
  {
  }

  /** A sequence that starts with the head of `xs` and goes on with its tail is `xs`. */
  lemma HeadTail<T>(s: seq<T>, q: seq<T>, xs: seq<T>)
    requires |xs| >= 1 && s == [xs[0]] + q && q == xs[1..]
    ensures s == xs
  {
  }

  /** The pieces of a field line, regrouped around the key. */
  lemma LineRegroup(a: string, q: string, name: string, c: string, r: string, cm: string, nl: string, t: string)
    ensures (a + q) + name + (q + c) + r + cm + nl + t == a + (q + name + q + (c + r + ((cm + nl) + t)))
  {
  }

  /** A property of each of thirteen elements, gathered into one. */
  lemma Each13<T>(s: seq<T>, P: T -> bool)
    requires |s| == 13
    requires P(s[0]) && P(s[1]) && P(s[2]) && P(s[3]) && P(s[4]) && P(s[5]) && P(s[6])
    requires P(s[7]) && P(s[8]) && P(s[9]) && P(s[10]) && P(s[11]) && P(s[12])
    ensures forall k :: 0 <= k < 13 ==> P(s[k])
  {
  }
}
