/**
 * What the repository's regular expressions match, written as scanners over
 * the text. Each `...At` function says what the pattern matches when the
 * match starts at the first character; `Objects` and `Find` repeat that at
 * successive start positions, as `Matcher.find` does.
 */
module Scanner {
  import opened Base
  import opened Text

  /** Java's `\s`: space, tab, line feed, vertical tab, form feed, carriage return. */
  predicate IsSpace(c: char) {
    c == ' ' || c == '\t' || c == '\n' || c as int == 11 || c as int == 12 || c == '\r'
  }

  /** The line terminators that `.` does not match. */
  predicate IsLineTerminator(c: char) {
    c == '\n' || c == '\r' || c as int == 0x85 || c as int == 0x2028 || c as int == 0x2029
  }

  /** What is left after a greedy `\s*`. */
  function SkipSpaces(s: string): (r: string)
    ensures |r| <= |s| && r == s[|s| - |r|..]
    ensures r == [] || !IsSpace(r[0])
  {
    if s != [] && IsSpace(s[0]) then SkipSpaces(s[1..]) else s
  }

  /** Length of the leading run of `\d`. */
  function DigitRun(s: string): (n: nat)
    ensures n <= |s|
    ensures forall i :: 0 <= i < n ==> IsDigit(s[i])
    ensures n < |s| ==> !IsDigit(s[n])
  {
    if s != [] && IsDigit(s[0]) then 1 + DigitRun(s[1..]) else 0
  }

  /** Index of the first `c` in `s`, or -1. */
  function IndexOf(s: string, c: char): (r: int)
    ensures -1 <= r < |s|
    ensures r == -1 <==> c !in s
    ensures r >= 0 ==> s[r] == c && c !in s[..r]
  {
    if s == [] then -1
    else if s[0] == c then 0
    else
      var r := IndexOf(s[1..], c);
      assert s == [s[0]] + s[1..];
      if r == -1 then -1
      else
        assert s[..r + 1] == [s[0]] + s[1..][..r];
        r + 1
  }

  // ----------------------------------------------------------- objects

  /**
   * Scans the body of `\{[^{}]*(?:\{[^{}]*\}[^{}]*)*\}` from index `i`, at
   * nesting `depth`; the result is the end of the match.
   */
  function ObjectRest(s: string, i: nat, depth: nat): (r: Option<nat>)
    requires i <= |s| && depth <= 1
    ensures r.Some? ==> i < r.value <= |s| && s[r.value - 1] == '}'
    decreases |s| - i
  {
    if i == |s| then None
    else if s[i] == '}' then
      if depth == 0 then Some(i + 1) else ObjectRest(s, i + 1, 0)
    else if s[i] == '{' then
      if depth == 0 then ObjectRest(s, i + 1, 1) else None
    else ObjectRest(s, i + 1, depth)
  }

  /** Length of the brace object the game pattern matches at the start of `s`. */
  function ObjectAt(s: string): (r: Option<nat>)
    ensures r.Some? ==> 2 <= r.value <= |s| && s[0] == '{' && s[r.value - 1] == '}'
  {
    if s == [] || s[0] != '{' then None else ObjectRest(s, 1, 0)
  }

  /** Every successive match of the game pattern, in document order. */
  function Objects(s: string): (r: seq<string>)
    ensures forall k :: 0 <= k < |r| ==> |r[k]| >= 2 && r[k][0] == '{' && r[k][|r[k]| - 1] == '}'
    decreases |s|
  {
    if s == [] then []
    else
      match ObjectAt(s)
      case Some(n) => [s[..n]] + Objects(s[n..])
      case None => Objects(s[1..])
  }

  // ------------------------------------------------------------ fields

  /** The value shapes of the four field patterns. */
  datatype Kind =
    | TextKind   // "([^"]*)"
    | IntKind    // (\d+|null)
    | RealKind   // (\d+\.\d+|\d+|null)
    | ListKind   // \[(.*?)\]  and then every "([^"]*)" inside

  /** What a field pattern captures: one token, or the quoted items of a list. */
  datatype Raw = Token(text: string) | Items(items: seq<string>)

  function Quote(name: string): string {
    "\"" + name + "\""
  }

  /** The captured items: each `"([^"]*)"` match, left to right. */
  function QuotedItems(t: string): seq<string>
    decreases |t|
  {
    var i := IndexOf(t, '"');
    if i < 0 then []
    else
      var u := t[i + 1..];
      var j := IndexOf(u, '"');
      if j < 0 then []
      else [u[..j]] + QuotedItems(u[j + 1..])
  }

  /** Index of the `]` that ends the lazy `.*?`: the first `]`, provided no line terminator comes before it. */
  function BracketEnd(t: string): (r: Option<nat>)
    ensures r.Some? ==> r.value < |t| && t[r.value] == ']'
    ensures r.Some? ==> forall i :: 0 <= i < r.value ==> t[i] != ']' && !IsLineTerminator(t[i])
  {
    if t == [] || IsLineTerminator(t[0]) then None
    else if t[0] == ']' then Some(0)
    else
      match BracketEnd(t[1..])
      case None => None
      case Some(k) => Some(k + 1)
  }

  /** What the value part of a field pattern of `kind` captures at the start of `v`. */
  function ValueAt(v: string, kind: Kind): (r: Option<Raw>)
    ensures kind == ListKind && r.Some? ==> r.value.Items?
    ensures kind != ListKind && r.Some? ==> r.value.Token?
    ensures kind == IntKind && r.Some? ==> r.value.text == "null" || (r.value.text != [] && AllDigits(r.value.text))
  {
    match kind
    case TextKind =>
      if v == [] || v[0] != '"' then None
      else
        var q := IndexOf(v[1..], '"');
        if q < 0 then None else Some(Token(v[1..][..q]))
    case IntKind =>
      var d := DigitRun(v);
      if d > 0 then Some(Token(v[..d]))
      else if |v| >= 4 && v[..4] == "null" then Some(Token("null"))
      else None
    case RealKind =>
      var d := DigitRun(v);
      if d > 0 && d + 1 < |v| && v[d] == '.' && DigitRun(v[d + 1..]) > 0 then
        Some(Token(v[..d + 1 + DigitRun(v[d + 1..])]))
      else if d > 0 then Some(Token(v[..d]))
      else if |v| >= 4 && v[..4] == "null" then Some(Token("null"))
      else None
    case ListKind =>
      if v == [] || v[0] != '[' then None
      else
        match BracketEnd(v[1..])
        case None => None
        case Some(n) => Some(Items(QuotedItems(v[1..][..n])))
  }

  /** The pattern `"name"\s*:\s*` followed by the value of `kind`, matched at the start of `s`. */
  function MatchAt(s: string, name: string, kind: Kind): Option<Raw> {
    var key := Quote(name);
    if |s| < |key| || s[..|key|] != key then None
    else
      var r := SkipSpaces(s[|key|..]);
      if r == [] || r[0] != ':' then None
      else ValueAt(SkipSpaces(r[1..]), kind)
  }

  /**
   * `matcher.find()` for a field pattern: the first start position where it
   * matches. The pattern opens with a quote, so only a quote can start a match.
   */
  function Find(s: string, name: string, kind: Kind): (r: Option<Raw>)
    ensures kind == ListKind && r.Some? ==> r.value.Items?
    ensures kind != ListKind && r.Some? ==> r.value.Token?
    ensures kind == IntKind && r.Some? ==> r.value.text == "null" || (r.value.text != [] && AllDigits(r.value.text))
    decreases |s|, 1
  {
    if s == [] then None
    else if s[0] == '"' then FindAtQuote(s, name, kind)
    else Find(s[1..], name, kind)
  }

  /** The search at a quote: the match starting there, or the search from the next position. */
  function FindAtQuote(s: string, name: string, kind: Kind): (r: Option<Raw>)
    requires s != []
    ensures kind == ListKind && r.Some? ==> r.value.Items?
    ensures kind != ListKind && r.Some? ==> r.value.Token?
    ensures kind == IntKind && r.Some? ==> r.value.text == "null" || (r.value.text != [] && AllDigits(r.value.text))
    decreases |s|, 0
  {
    var m := MatchAt(s, name, kind);
    if m.Some? then m else Find(s[1..], name, kind)
  }

  /** The text `key` starts `s`. */
  predicate KeyAt(s: string, key: string) {
    |key| <= |s| && s[..|key|] == key
  }

  /** With no match at any start position, the search finds nothing. */
  lemma {:induction false} FindNone(s: string, name: string, kind: Kind)
    requires forall i :: 0 <= i < |s| ==> MatchAt(s[i..], name, kind) == None
    ensures Find(s, name, kind) == None
  {
    if s != [] {
      assert s[0..] == s;
      NoMatchTail(s, name, kind, |s|);
      FindNone(s[1..], name, kind);
    }
  }

  /** No match before position `n` of `s` is no match before position `n - 1` of its tail. */
  lemma NoMatchTail(s: string, name: string, kind: Kind, n: nat)
    requires 0 < n <= |s|
    requires forall i :: 0 <= i < n ==> MatchAt(s[i..], name, kind) == None
    ensures MatchAt(s, name, kind) == None
    ensures forall i :: 0 <= i < n - 1 ==> MatchAt(s[1..][i..], name, kind) == None
  {
    assert s[0..] == s;
    forall i | 0 <= i < n - 1 ensures MatchAt(s[1..][i..], name, kind) == None {
      assert s[1..][i..] == s[i + 1..];
    }
  }

  /** The search gives the match at the first start position that has one. */
  lemma {:induction false} FindFirst(s: string, name: string, kind: Kind, n: nat)
    requires n < |s| && MatchAt(s[n..], name, kind).Some?
    requires forall i :: 0 <= i < n ==> MatchAt(s[i..], name, kind) == None
    ensures Find(s, name, kind) == MatchAt(s[n..], name, kind)
  {
    if n == 0 {
      assert s[0..] == s;
      FindHere(s, name, kind);
    } else {
      assert s[1..][n - 1..] == s[n..];
      NoMatchTail(s, name, kind, n);
      FindFirst(s[1..], name, kind, n - 1);
      FindSkip(s, name, kind);
    }
  }

  /** A match at the first position is what the search gives. */
  lemma FindHere(s: string, name: string, kind: Kind)
    requires MatchAt(s, name, kind).Some?
    ensures Find(s, name, kind) == MatchAt(s, name, kind)
  {
    MatchAtQuote(s, name, kind);
  }

  /** Without a match at the first position the search goes on from the next one. */
  lemma FindSkip(s: string, name: string, kind: Kind)
    requires s != [] && MatchAt(s, name, kind) == None
    ensures Find(s, name, kind) == Find(s[1..], name, kind)
  {
  }

  /** Only a quote can start a match. */
  lemma MatchAtQuote(s: string, name: string, kind: Kind)
    requires MatchAt(s, name, kind).Some?
    ensures s != [] && s[0] == '"'
  {
    assert s[..|Quote(name)|][0] == Quote(name)[0];
  }

  /** A text in which the quoted field name never occurs has no match for that field. */
  lemma FindAbsent(s: string, name: string, kind: Kind)
    requires forall i :: 0 <= i < |s| ==> !KeyAt(s[i..], Quote(name))
    ensures Find(s, name, kind) == None
  {
    FindNone(s, name, kind);
  }

  /** The value of a number field that starts with a minus sign. */
  predicate SignedValueAfter(t: string) {
    var r := SkipSpaces(t);
    r != [] && r[0] == ':' && var v := SkipSpaces(r[1..]); v != [] && v[0] == '-'
  }

  /** `\d+|null` does not match a negative number, so a field whose every value is negative is not found. */
  lemma FindSigned(s: string, name: string)
    requires forall i :: 0 <= i < |s| && KeyAt(s[i..], Quote(name)) ==> SignedValueAfter(s[i..][|Quote(name)|..])
    ensures Find(s, name, IntKind) == None
  {
    forall i | 0 <= i < |s| ensures MatchAt(s[i..], name, IntKind) == None {
      if KeyAt(s[i..], Quote(name)) {
        var v := SkipSpaces(SkipSpaces(s[i..][|Quote(name)|..])[1..]);
        assert DigitRun(v) == 0;
        assert |v| >= 4 ==> v[..4][0] == '-';
      }
    }
    FindNone(s, name, IntKind);
  }
}
