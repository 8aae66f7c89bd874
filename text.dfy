/** Character classes and string helpers shared by the pattern scanners.

    Python's `\w` and `\s` are Unicode-aware; here they are their ASCII parts:
    `\w` is [A-Za-z0-9_] and `\s` is the six characters space, tab, newline,
    carriage return, vertical tab and form feed. */
module Text {

  predicate IsDigit(c: char) { '0' <= c <= '9' }

  predicate IsWord(c: char) {
    'A' <= c <= 'Z' || 'a' <= c <= 'z' || IsDigit(c) || c == '_'
  }

  /** Space, or one of tab, newline, vertical tab, form feed and carriage
      return, which are the consecutive codes 9 to 13. */
  predicate IsSpace(c: char) {
    c == ' ' || '\t' <= c <= '\r'
  }

  /** The character classes that the patterns repeat with `*` or `+`. */
  datatype CharClass =
    | Word          // \w
    | Space         // \s (and [\s\n], which is the same set)
    | Digit         // \d
    | Dash          // -
    | Dot           // \.
    | Label         // [\w\.\+\-]
    | WordOrSpace   // [\w\s] and [\w\s\n]
    | CountChar     // the characters of (?:\d+\,*\s*)+
    | TimeChar      // [ -0-9+.-:], which Python reads as the range ' ' .. ':'
    | NotNewline    // . without DOTALL

  predicate In(cls: CharClass, c: char) {
    match cls
    case Word => IsWord(c)
    case Space => IsSpace(c)
    case Digit => IsDigit(c)
    case Dash => c == '-'
    case Dot => c == '.'
    case Label => IsWord(c) || c == '.' || c == '+' || c == '-'
    case WordOrSpace => IsWord(c) || IsSpace(c)
    case CountChar => IsDigit(c) || c == ',' || IsSpace(c)
    case TimeChar => ' ' <= c <= ':'
    case NotNewline => c != '\n'
  }

  /** The end of the longest run of `cls` characters starting at `k`: what a
      greedy `cls*` consumes from position `k`. */
  function Span(s: string, k: nat, cls: CharClass): (r: nat)
    requires k <= |s|
    ensures k <= r <= |s|
    ensures forall m {:trigger In(cls, s[m])} :: k <= m < r ==> In(cls, s[m])
    ensures r == |s| || !In(cls, s[r])
    decreases |s| - k
  {
    if k < |s| && In(cls, s[k]) then Span(s, k + 1, cls) else k
  }

  /** A run is determined by where it starts: any end with the two properties
      of `Span` is `Span`. */
  lemma {:induction false} SpanUnique(s: string, k: nat, cls: CharClass, e: nat)
    requires k <= e <= |s|
    requires forall m :: k <= m < e ==> In(cls, s[m])
    requires e == |s| || !In(cls, s[e])
    ensures Span(s, k, cls) == e
    decreases e - k
  {
    if k < e {
      SpanUnique(s, k + 1, cls, e);
    }
  }

  /** Every character of s[a..b] is in cls. */
  predicate AllIn(s: string, a: nat, b: nat, cls: CharClass)
    requires a <= b <= |s|
  {
    forall m {:trigger In(cls, s[m])} :: a <= m < b ==> In(cls, s[m])
  }

  /** A run of `cls` characters from k to e lies inside the longest one. */
  lemma {:induction false} SpanCovers(s: string, k: nat, cls: CharClass, e: nat)
    requires k <= e <= |s| && AllIn(s, k, e, cls)
    ensures e <= Span(s, k, cls)
    decreases e - k
  {
    if k < e {
      assert In(cls, s[k]);
      SpanCovers(s, k + 1, cls, e);
    }
  }

  /** `lit` occurs in `s` at position `i`. */
  predicate LiteralAt(s: string, i: nat, lit: string) {
    i + |lit| <= |s| && s[i..i + |lit|] == lit
  }

  /** Python's `s.replace('\n', '')`. */
  function StripNewlines(s: string): (r: string)
    ensures '\n' !in r
    ensures |r| <= |s|
    ensures '\n' !in s ==> r == s
  {
    if s == [] then []
    else if s[0] == '\n' then StripNewlines(s[1..])
    else [s[0]] + StripNewlines(s[1..])
  }

  lemma {:induction false} StripNewlinesAppend(a: string, b: string)
    ensures StripNewlines(a + b) == StripNewlines(a) + StripNewlines(b)
  {
    if a == [] {
      assert a + b == b;
    } else {
      assert (a + b)[0] == a[0];
      assert (a + b)[1..] == a[1..] + b;
      StripNewlinesAppend(a[1..], b);
    }
  }

  /** Stripping twice is stripping once. */
  lemma StripNewlinesIdempotent(s: string)
    ensures StripNewlines(StripNewlines(s)) == StripNewlines(s)
  {
  }

  /** Every character that is not a newline survives: the result has
      exactly as many occurrences of each other character (the order is
      kept too, as StripNewlinesAppend shows piece by piece). */
  lemma {:induction false} StripNewlinesKeepsOthers(s: string)
    ensures multiset(StripNewlines(s)) == multiset(s)[ '\n' := 0 ]
  {
    if s != [] {
      StripNewlinesKeepsOthers(s[1..]);
      assert s == [s[0]] + s[1..];
      assert multiset(s) == multiset([s[0]]) + multiset(s[1..]);
    }
  }

  function LowerChar(c: char): char {
    if 'A' <= c <= 'Z' then (c as int + 32) as char else c
  }

  /** Python's `s.lower()` on ASCII letters. */
  function Lower(s: string): (r: string)
    ensures |r| == |s|
  {
    seq(|s|, k requires 0 <= k < |s| => LowerChar(s[k]))
  }

  /** Python's `sub in s`. */
  predicate Contains(s: string, sub: string) {
    exists k :: 0 <= k <= |s| && LiteralAt(s, k, sub)
  }

  /** Lowering both texts keeps an occurrence of one in the other. */
  lemma LowerKeepsContains(s: string, sub: string)
    requires Contains(s, sub)
    ensures Contains(Lower(s), Lower(sub))
  {
    var k :| 0 <= k <= |s| && LiteralAt(s, k, sub);
    assert Lower(s)[k..k + |sub|] == Lower(sub) by {
      forall m | 0 <= m < |sub| ensures Lower(s)[k + m] == Lower(sub)[m] {
        assert s[k + m] == s[k..k + |sub|][m];
      }
    }
    assert LiteralAt(Lower(s), k, Lower(sub));
  }
}
