/** Descriptions of what each template of the pattern library matches,
    written without the scanners: a finite automaton for the number shape,
    and predicates on positions of the text for every other piece. */
module PatternSpecs {
  import opened Wrappers
  import opened Text
  import opened ParamPatterns

  // ---------------------------------------------------------------------
  // oneFloat: -*\d+\.*\d*, directly after the `=`, longest possible

  /** A four-state automaton accepting exactly the strings -*\d+\.*\d*. */
  datatype FloatState = Dashes | IntDigits | Dots | FracDigits | Dead

  function FloatStep(q: FloatState, c: char): FloatState {
    match q
    case Dashes => if c == '-' then Dashes else if IsDigit(c) then IntDigits else Dead
    case IntDigits => if IsDigit(c) then IntDigits else if c == '.' then Dots else Dead
    case Dots => if c == '.' then Dots else if IsDigit(c) then FracDigits else Dead
    case FracDigits => if IsDigit(c) then FracDigits else Dead
    case Dead => Dead
  }

  function FloatRun(t: string): FloatState {
    if t == [] then Dashes else FloatStep(FloatRun(t[..|t| - 1]), t[|t| - 1])
  }

  predicate IsFloatText(t: string) {
    var q := FloatRun(t);
    q == IntDigits || q == Dots || q == FracDigits
  }

  /** The automaton state after reading s[j..k], computed from the runs that
      the oneFloat scanner measures. */
  function FloatStateAt(s: string, j: nat, k: nat): FloatState
    requires j <= k <= |s|
  {
    var a := Span(s, j, Dash);
    if k <= a then Dashes
    else if !(a < |s| && IsDigit(s[a])) then Dead
    else
      var b := Span(s, a, Digit);
      var c := Span(s, b, Dot);
      var e := Span(s, c, Digit);
      if k <= b then IntDigits
      else if k <= c then Dots
      else if k <= e then FracDigits
      else Dead
  }

  /** Some non-empty text starting at q has the number shape. */
  predicate NumberStartsAt(s: string, q: nat)
    requires q <= |s|
  {
    exists k {:trigger IsFloatText(s[q..k])} :: q < k <= |s| && IsFloatText(s[q..k])
  }

  // ---------------------------------------------------------------------
  // The count prefix \(\s(?:\d+\,*\s*)+\s\)

  /** s[a..b] is a text the count prefix matches: `(`, one whitespace
      character, a run of digits, commas and whitespace that starts with a
      digit and has no comma directly after whitespace, one whitespace
      character, `)`. */
  predicate IsCountPrefix(s: string, a: nat, b: nat) {
    && a + 5 <= b <= |s|
    && s[a] == '(' && IsSpace(s[a + 1]) && IsDigit(s[a + 2])
    && s[b - 1] == ')' && IsSpace(s[b - 2])
    && AllIn(s, a + 2, b - 1, CountChar) && NoCommaAfterSpace(s, a + 2, b - 2)
  }

  // ---------------------------------------------------------------------
  // oneLineAngleText and angleText: <([\w\.\+\-]+)>

  /** s[a..b] is a text `<([\w\.\+\-]+)>` matches: `<`, a non-empty run of
      word characters, dots, plus and minus signs, `>`. */
  predicate IsAngleLabel(s: string, a: nat, b: nat) {
    a + 3 <= b <= |s| && s[a] == '<' && s[b - 1] == '>' && AllIn(s, a + 1, b - 1, Label)
  }

  // ---------------------------------------------------------------------
  // floatArray: ((?:-*\d+\.*\d*[\s\n]*)+) after the count prefix and one whitespace

  /** The characters a list of numbers is made of. */
  predicate FloatListChar(c: char) {
    IsDigit(c) || c == '-' || c == '.' || IsSpace(c)
  }

  /** s[q..k] is the longest text from q with the number shape. */
  predicate LongestNumber(s: string, q: nat, k: nat)
    requires q <= k <= |s|
  {
    IsFloatText(s[q..k]) && forall k' {:trigger IsFloatText(s[q..k'])} :: k < k' <= |s| ==> !IsFloatText(s[q..k'])
  }

  /** s[q..e] is a chain of number items: each item is the longest number
      text at its start followed by all the whitespace after it. */
  predicate FloatChain(s: string, q: nat, e: nat)
    requires q <= e <= |s|
    decreases e - q
  {
    q == e
    || exists k {:trigger LongestNumber(s, q, k)} ::
         q < k <= e && LongestNumber(s, q, k) && Span(s, k, Space) <= e && FloatChain(s, Span(s, k, Space), e)
  }

  /** s[q..e] is what the repeated number items take: a non-empty chain
      of items after which no further number starts. */
  predicate FloatItemsFrom(s: string, q: nat, e: nat)
    requires q <= e <= |s|
  {
    q < e && FloatChain(s, q, e) && !NumberStartsAt(s, e)
  }

  // ---------------------------------------------------------------------
  // angleTextArray: ((?:(<(?:\w*\s)+\w*>)\s)+)

  /** s[a..b] is a text `<(?:\w*\s)+\w*>` matches: `<`, word and whitespace
      characters holding at least one whitespace character, `>`. */
  predicate IsAngleToken(s: string, a: nat, b: nat) {
    && a + 2 <= b <= |s| && s[a] == '<' && s[b - 1] == '>'
    && AllIn(s, a + 1, b - 1, WordOrSpace) && HasSpace(s, a + 1, b - 1)
  }

  /** No token item (a bracketed token and one whitespace character)
      starts at e. */
  predicate NoTokenItemAt(s: string, e: nat)
    requires e <= |s|
  {
    forall f :: e <= f < |s| && IsAngleToken(s, e, f) ==> !IsSpace(s[f])
  }

  /** s[q..e] is a non-empty chain of token items, each a bracketed token
      and one whitespace character, whose last token starts at g. */
  predicate AngleChain(s: string, q: nat, g: nat, e: nat)
    requires q <= e <= |s|
    decreases e - q
  {
    exists b {:trigger IsAngleToken(s, q, b)} ::
      && q < b < e && IsAngleToken(s, q, b) && IsSpace(s[b])
      && ((b + 1 == e && g == q) || (b + 1 < e && AngleChain(s, b + 1, g, e)))
  }

  /** s[q..e] is what the repeated token items take, the last token
      starting at g: a chain of items after which no further item starts. */
  predicate AngleItemsFrom(s: string, q: nat, g: nat, e: nat)
    requires q <= e <= |s|
  {
    AngleChain(s, q, g, e) && NoTokenItemAt(s, e)
  }

  // ---------------------------------------------------------------------
  // comment: count prefix, newline, <.*>

  /** Group 1 of m is the run of bracketed tokens, each followed by one
      whitespace character, that ends where m does and stops where no
      further token starts; group 2 is the last of those tokens. */
  predicate AngleItemsGroups(s: string, m: Match) {
    && |m.group1| <= m.end <= |s| && |m.group2| < m.end
    && m.group1 == s[m.end - |m.group1|..m.end]
    && m.group2 == s[m.end - |m.group2| - 1..m.end - 1]
    && AngleItemsFrom(s, m.end - |m.group1|, m.end - |m.group2| - 1, m.end)
  }

  /** After the `=` at j: a count prefix ending at p, a newline, `<`, and a
      `>` at g on that same line. */
  predicate CommentLine(s: string, j: nat, p: nat, g: nat) {
    && p + 2 <= g < |s| && IsCountPrefix(s, j, p)
    && s[p] == '\n' && s[p + 1] == '<' && s[g] == '>' && AllIn(s, p + 2, g, NotNewline)
  }

  /** Some count prefix from j puts a comment's closing `>` at g. */
  predicate CommentEndsAt(s: string, j: nat, g: nat) {
    exists p: nat :: j <= p <= g && CommentLine(s, j, p, g)
  }

  // ---------------------------------------------------------------------
  // The save-time pattern: ##OWNER=(?:\w+)\s\$\$\s([ -0-9+.-:]+)

  /** After `##OWNER=` at j: a non-empty word run ending at w, one
      whitespace character, `$$`, one whitespace character. */
  predicate IsOwnerField(s: string, j: nat, w: nat) {
    && j < w && w + 4 <= |s| && AllIn(s, j, w, Word)
    && IsSpace(s[w]) && s[w + 1] == '$' && s[w + 2] == '$' && IsSpace(s[w + 3])
  }

  // ---------------------------------------------------------------------
  // The version pattern: \(\s\d+\s\)\s\<(PV (\d+)\.\d+\.*\d*)\>

  /** s[a..b] is `\(\s\d+\s\)`. */
  predicate IsParenNumber(s: string, a: nat, b: nat) {
    && a + 5 <= b <= |s| && s[a] == '(' && IsSpace(s[a + 1])
    && AllIn(s, a + 2, b - 2, Digit) && IsSpace(s[b - 2]) && s[b - 1] == ')'
  }

  /** s[q..e] is a version label followed by `>` at e: `PV `, the digit
      run s[q + 3..b], a dot, and then digits, dots and digits (a text of
      the number shape that starts with a digit). */
  predicate IsVersionLabel(s: string, q: nat, b: nat, e: nat) {
    && q + 3 < b && b + 2 <= e < |s| && LiteralAt(s, q, "PV ")
    && AllIn(s, q + 3, b, Digit) && s[b] == '.' && IsDigit(s[b + 1])
    && IsFloatText(s[b + 1..e]) && s[e] == '>'
  }

  /** Between j and q: the bracketed count, one whitespace character and
      `<`. */
  predicate VersionPrefix(s: string, j: nat, q: nat) {
    && j + 7 <= q <= |s|
    && IsParenNumber(s, j, q - 2) && IsSpace(s[q - 2]) && s[q - 1] == '<'
  }

  /** The groups of a version match whose label starts at q: group 1 runs
      from q to the `>` that ends the match and is a version label, and
      group 2 is its major number, the digit run after `PV `. */
  predicate VersionGroups(s: string, q: nat, m: Match) {
    && q + |m.group1| + 1 == m.end <= |s|
    && m.group1 == s[q..m.end - 1]
    && q + 3 + |m.group2| <= m.end
    && m.group2 == s[q + 3..q + 3 + |m.group2|]
    && IsVersionLabel(s, q, q + 3 + |m.group2|, m.end - 1)
  }

  /** m is what the version pattern leaves after the version literal at j:
      the label starts at some q that the prefix reaches. */
  predicate VersionMatch(s: string, j: nat, m: Match) {
    exists q :: j <= q <= |s| && VersionPrefix(s, j, q) && VersionGroups(s, q, m)
  }

  /** The two version captures on their own: group 1 is `PV `, the
      non-empty digit run that is group 2, a dot, and digits, dots and
      digits. */
  predicate IsVersionCapture(g1: string, g2: string) {
    && 0 < |g2| && 4 + |g2| < |g1| && g1[..3] == "PV " && g1[3..3 + |g2|] == g2
    && g1[3 + |g2|] == '.' && (forall c :: c in g2 ==> IsDigit(c))
    && IsDigit(g1[4 + |g2|]) && IsFloatText(g1[4 + |g2|..])
  }
}
