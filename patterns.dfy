/** The pattern library: the nine templates of paramRE.py, each of which is
    the literally escaped parameter name, then `=`, then one value shape, plus
    the two one-off patterns that readParameters builds by hand (the OWNER
    line that carries the save time, and the software-version record).

    There is no regex engine here. Each shape has its own scanner that follows
    what Python's backtracking matcher returns: the FIRST way the pattern can
    succeed, trying every greedy repetition longest-first. */
module ParamPatterns {
  import opened Wrappers
  import opened Text

  /** The nine templates, one per builder function of paramRE.py. */
  datatype Shape =
    | OneLineAngleText   // name=<label>
    | AngleTextArray     // name=( n ) <a b> <c d> ...
    | OneLineText        // name=word
    | AngleText          // name=( n ) <label>
    | TextArray          // name=( n ) words and spaces
    | FloatArray         // name=( n ) 1.0 -2 3.5 ...
    | OneFloat           // name=-1.5
    | NextLine           // name=word \n word
    | Comment            // name=( n )\n<... up to the last > of the line>

  datatype Pattern =
    | Template(shape: Shape, name: string)
    | OwnerSaveTime   // \#\#OWNER\=(?:\w+)\s\$\$\s([ -0-9+.-:]+)
    | SwVersion       // re.escape('##$ACQ_sw_version = ') \(\s\d+\s\) \s \<(PV (\d+)\.\d+\.*\d*)\>

  /** The literal every match of the pattern starts with. `re.escape` makes
      the characters of the name (`#`, `$`, ...) stand for themselves. */
  function Anchor(p: Pattern): string {
    match p
    case Template(_, name) => name + "="
    case OwnerSaveTime => "##OWNER="
    case SwVersion => "##$ACQ_sw_version = "
  }

  /** A successful match: group 0 is s[start..end]; a pattern with fewer
      groups leaves the others "". */
  datatype Match = Match(start: nat, end: nat, group1: string, group2: string)

  /** `<([\w\.\+\-]+)>` at j; the end is just after the `>`. The run cannot
      contain `>`, so backtracking never offers a second end. */
  function AngleLabelEnd(s: string, j: nat): (r: Option<nat>)
    requires j <= |s|
    ensures r.Some? ==> j + 3 <= r.value <= |s|
  {
    if j < |s| && s[j] == '<' then
      var k := Span(s, j + 1, Label);
      if j + 1 < k < |s| && s[k] == '>' then Some(k + 1) else None
    else None
  }

  /** A comma at m directly after a whitespace character. */
  predicate CommaAfterSpace(s: string, m: nat)
    requires 0 < m < |s|
  {
    s[m] == ',' && IsSpace(s[m - 1])
  }

  /** No comma directly after a whitespace character in s[a..b]. */
  predicate NoCommaAfterSpace(s: string, a: nat, b: nat)
    requires a <= b <= |s|
  {
    forall m :: a < m < b ==> !CommaAfterSpace(s, m)
  }

  /** `\(\s(?:\d+\,*\s*)+\s\)` at j; the end is just after the `)`. The
      repeated items and the final `\s` use only digits, commas and
      whitespace, so the `)` is the first character after j + 1 outside that
      set, and the whole prefix is fixed once its start is. */
  function CountPrefixEnd(s: string, j: nat): (r: Option<nat>)
    requires j <= |s|
    ensures r.Some? ==> j + 5 <= r.value <= |s|
  {
    if j + 2 <= |s| && s[j] == '(' && IsSpace(s[j + 1]) then
      var p := Span(s, j + 2, CountChar);
      if j + 4 <= p < |s| && s[p] == ')' && IsSpace(s[p - 1]) && IsDigit(s[j + 2])
         && NoCommaAfterSpace(s, j + 2, p - 1)
      then Some(p + 1)
      else None
    else None
  }

  /** `-*\d+\.*\d*` at q (the fragment oneFloat, and the body of one item of
      listOfFloats). */
  function FloatEnd(s: string, q: nat): (r: Option<nat>)
    requires q <= |s|
    ensures r.Some? ==> q < r.value <= |s|
  {
    var a := Span(s, q, Dash);
    if a < |s| && IsDigit(s[a]) then
      var b := Span(s, a, Digit);
      var c := Span(s, b, Dot);
      Some(Span(s, c, Digit))
    else None
  }

  /** Some whitespace character in s[a..b]. */
  predicate HasSpace(s: string, a: nat, b: nat)
    requires a <= b <= |s|
  {
    exists m {:trigger IsSpace(s[m])} :: a <= m < b && IsSpace(s[m])
  }

  /** `<(?:\w*\s)+\w*>` at q: a `<`, a run of word and whitespace characters
      holding at least one whitespace character, and a `>`. */
  function AngleTokenEnd(s: string, q: nat): (r: Option<nat>)
    requires q <= |s|
    ensures r.Some? ==> q + 2 <= r.value <= |s|
  {
    if q < |s| && s[q] == '<' then
      var k := Span(s, q + 1, WordOrSpace);
      if k < |s| && s[k] == '>' && HasSpace(s, q + 1, k) then Some(k + 1) else None
    else None
  }

  /** The two repeated items: one number of listOfFloats, `-*\d+\.*\d*[\s\n]*`,
      and one bracketed token of textInAngleArray followed by one `\s`. */
  datatype Item = FloatItem | AngleItem

  function ItemEnd(s: string, q: nat, item: Item): (r: Option<nat>)
    requires q <= |s|
    ensures r.Some? ==> q < r.value <= |s|
  {
    match item
    case FloatItem =>
      (match FloatEnd(s, q)
       case Some(e) => Some(Span(s, e, Space))
       case None => None)
    case AngleItem =>
      (match AngleTokenEnd(s, q)
       case Some(e) => if e < |s| && IsSpace(s[e]) then Some(e + 1) else None
       case None => None)
  }

  /** Where a greedy `(?:item)+` with nothing after it stops, from q: each
      item is taken as long as it goes, and the repetition ends at the first
      position where no further item starts. `last` is where the final item
      starts; when no item fits at all, both fields are q. */
  datatype Run = Run(last: nat, end: nat)

  function Repeat(s: string, q: nat, item: Item): (r: Run)
    requires q <= |s|
    ensures q <= r.last <= r.end <= |s|
    ensures r.end == q ==> r.last == q
    ensures r.end > q ==> r.last < r.end
    decreases |s| - q
  {
    match ItemEnd(s, q, item)
    case None => Run(q, q)
    case Some(e) =>
      var rest := Repeat(s, e, item);
      if rest.end == e then Run(q, e) else rest
  }

  /** The last position in [lo, hi) holding c. */
  function LastIndexOf(s: string, lo: nat, hi: nat, c: char): (r: Option<nat>)
    requires lo <= hi <= |s|
    ensures r.Some? ==> lo <= r.value < hi && s[r.value] == c
    ensures r.Some? ==> forall m :: r.value < m < hi ==> s[m] != c
    ensures r.None? ==> forall m :: lo <= m < hi ==> s[m] != c
    decreases hi - lo
  {
    if lo == hi then None
    else if s[hi - 1] == c then Some(hi - 1)
    else LastIndexOf(s, lo, hi - 1, c)
  }

  /** The count prefix at j and the single character after it, which is
      whitespace for every prefixed template: the position of that character. */
  function PrefixThenSpace(s: string, j: nat): (r: Option<nat>)
    requires j <= |s|
    ensures r.Some? ==> j + 5 <= r.value < |s| && IsSpace(s[r.value])
  {
    match CountPrefixEnd(s, j)
    case Some(p) => if p < |s| && IsSpace(s[p]) then Some(p) else None
    case None => None
  }

  /** oneLineAngleText after the `=` at j: `<([\w\.\+\-]+)>`. */
  function OneLineAngleTextAt(s: string, i: nat, j: nat): (r: Option<Match>)
    requires i <= j <= |s|
    ensures r.Some? ==> r.value.start == i && j < r.value.end <= |s|
  {
    match AngleLabelEnd(s, j)
    case Some(e) => Some(Match(i, e, s[j + 1..e - 1], ""))
    case None => None
  }

  /** oneLineText after the `=` at j: `(\w*)`, which always matches. */
  function OneLineTextAt(s: string, i: nat, j: nat): (r: Option<Match>)
    requires i <= j <= |s|
    ensures r.Some? ==> r.value.start == i && j <= r.value.end <= |s|
  {
    var e := Span(s, j, Word);
    Some(Match(i, e, s[j..e], ""))
  }

  /** oneFloat after the `=` at j: `(-*\d+\.*\d*)`. */
  function OneFloatAt(s: string, i: nat, j: nat): (r: Option<Match>)
    requires i <= j <= |s|
    ensures r.Some? ==> r.value.start == i && j < r.value.end <= |s|
  {
    match FloatEnd(s, j)
    case Some(e) => Some(Match(i, e, s[j..e], ""))
    case None => None
  }

  /** nextLine after the `=` at j: `(\w*)\n(\w*)`. */
  function NextLineAt(s: string, i: nat, j: nat): (r: Option<Match>)
    requires i <= j <= |s|
    ensures r.Some? ==> r.value.start == i && j < r.value.end <= |s|
  {
    var e1 := Span(s, j, Word);
    if e1 < |s| && s[e1] == '\n' then
      var e2 := Span(s, e1 + 1, Word);
      Some(Match(i, e2, s[j..e1], s[e1 + 1..e2]))
    else None
  }

  /** angleText after the `=` at j: the count prefix, `\s`, `<([\w\.\+\-]+)>`. */
  function AngleTextAt(s: string, i: nat, j: nat): (r: Option<Match>)
    requires i <= j <= |s|
    ensures r.Some? ==> r.value.start == i && j < r.value.end <= |s|
  {
    match PrefixThenSpace(s, j)
    case Some(p) =>
      (match AngleLabelEnd(s, p + 1)
       case Some(e) => Some(Match(i, e, s[p + 2..e - 1], ""))
       case None => None)
    case None => None
  }

  /** textArray after the `=` at j: the count prefix, `\s`, `([\w\s\n]+)`. */
  function TextArrayAt(s: string, i: nat, j: nat): (r: Option<Match>)
    requires i <= j <= |s|
    ensures r.Some? ==> r.value.start == i && j < r.value.end <= |s|
  {
    match PrefixThenSpace(s, j)
    case Some(p) =>
      var e := Span(s, p + 1, WordOrSpace);
      if p + 1 < e then Some(Match(i, e, s[p + 1..e], "")) else None
    case None => None
  }

  /** floatArray after the `=` at j: the count prefix, `\s`,
      `((?:-*\d+\.*\d*[\s\n]*)+)`. */
  function FloatArrayAt(s: string, i: nat, j: nat): (r: Option<Match>)
    requires i <= j <= |s|
    ensures r.Some? ==> r.value.start == i && j < r.value.end <= |s|
  {
    match PrefixThenSpace(s, j)
    case Some(p) =>
      var run := Repeat(s, p + 1, FloatItem);
      if p + 1 < run.end then Some(Match(i, run.end, s[p + 1..run.end], "")) else None
    case None => None
  }

  /** angleTextArray after the `=` at j: the count prefix, `\s`,
      `((?:(<(?:\w*\s)+\w*>)\s)+)`; group 2 is the inner group, which holds
      the token of the last repetition. */
  function AngleTextArrayAt(s: string, i: nat, j: nat): (r: Option<Match>)
    requires i <= j <= |s|
    ensures r.Some? ==> r.value.start == i && j < r.value.end <= |s|
  {
    match PrefixThenSpace(s, j)
    case Some(p) => AngleRunAt(s, i, p + 1)
    case None => None
  }

  /** The token items of angleTextArray from q on, as a match that starts at
      i; group 2 is the token of the last item. */
  function AngleRunAt(s: string, i: nat, q: nat): (r: Option<Match>)
    requires i <= q <= |s|
    ensures r.Some? ==> r.value.start == i && q < r.value.end <= |s|
  {
    var run := Repeat(s, q, AngleItem);
    if q < run.end then Some(Match(i, run.end, s[q..run.end], s[run.last..run.end - 1])) else None
  }

  /** comment after the `=` at j: the count prefix, `\n`, `<.*>`, where `.*`
      stops at the end of the line and gives back characters until a `>`. */
  function CommentAt(s: string, i: nat, j: nat): (r: Option<Match>)
    requires i <= j <= |s|
    ensures r.Some? ==> r.value.start == i && j < r.value.end <= |s|
  {
    match PrefixThenSpace(s, j)
    case Some(p) =>
      if s[p] == '\n' && p + 1 < |s| && s[p + 1] == '<' then
        var lineEnd := Span(s, p + 2, NotNewline);
        match LastIndexOf(s, p + 2, lineEnd, '>')
        case Some(g) => Some(Match(i, g + 1, "", ""))
        case None => None
      else None
    case None => None
  }

  /** The value shape of a template, starting at j, just after the `=`. */
  function ShapeAt(s: string, i: nat, j: nat, shape: Shape): (r: Option<Match>)
    requires i <= j <= |s|
    ensures r.Some? ==> r.value.start == i && j <= r.value.end <= |s|
  {
    match shape
    case OneLineAngleText => OneLineAngleTextAt(s, i, j)
    case AngleTextArray => AngleTextArrayAt(s, i, j)
    case OneLineText => OneLineTextAt(s, i, j)
    case AngleText => AngleTextAt(s, i, j)
    case TextArray => TextArrayAt(s, i, j)
    case FloatArray => FloatArrayAt(s, i, j)
    case OneFloat => OneFloatAt(s, i, j)
    case NextLine => NextLineAt(s, i, j)
    case Comment => CommentAt(s, i, j)
  }

  /** `\#\#OWNER\=(?:\w+)\s\$\$\s([ -0-9+.-:]+)` after its literal, at j. */
  function SaveTimeAt(s: string, i: nat, j: nat): (r: Option<Match>)
    requires i <= j <= |s|
    ensures r.Some? ==> r.value.start == i && j < r.value.end <= |s|
  {
    var w := Span(s, j, Word);
    if j < w && w + 4 <= |s| && IsSpace(s[w]) && s[w + 1] == '$' && s[w + 2] == '$'
       && IsSpace(s[w + 3])
    then
      var e := Span(s, w + 4, TimeChar);
      if w + 4 < e then Some(Match(i, e, s[w + 4..e], "")) else None
    else None
  }

  /** `\(\s\d+\s\)` at j, the count of the version record: the position
      after its `)`. */
  function ParenNumberEnd(s: string, j: nat): (r: Option<nat>)
    requires j <= |s|
    ensures r.Some? ==> j + 5 <= r.value <= |s|
  {
    if j + 2 <= |s| && s[j] == '(' && IsSpace(s[j + 1]) then
      var d := Span(s, j + 2, Digit);
      if j + 2 < d && d + 2 <= |s| && IsSpace(s[d]) && s[d + 1] == ')' then Some(d + 2) else None
    else None
  }

  /** `(PV (\d+)\.\d+\.*\d*)\>` at q. */
  function VersionLabelAt(s: string, i: nat, q: nat): (r: Option<Match>)
    requires i <= q <= |s|
    ensures r.Some? ==> r.value.start == i && q < r.value.end <= |s|
  {
    if LiteralAt(s, q, "PV ") then
      var b := Span(s, q + 3, Digit);
      if q + 3 < b < |s| && s[b] == '.' then
        var c := Span(s, b + 1, Digit);
        var e := Span(s, Span(s, c, Dot), Digit);
        if b + 1 < c && e < |s| && s[e] == '>' then Some(Match(i, e + 1, s[q..e], s[q + 3..b]))
        else None
      else None
    else None
  }

  /** `\(\s\d+\s\)\s\<(PV (\d+)\.\d+\.*\d*)\>` after the version literal, at j. */
  function VersionAt(s: string, i: nat, j: nat): (r: Option<Match>)
    requires i <= j <= |s|
    ensures r.Some? ==> r.value.start == i && j < r.value.end <= |s|
  {
    match ParenNumberEnd(s, j)
    case Some(p) => if p + 2 <= |s| && IsSpace(s[p]) && s[p + 1] == '<' then VersionLabelAt(s, i, p + 2) else None
    case None => None
  }

  /** Python's `pattern.match(s, i)`: a match that starts exactly at i. */
  function MatchAt(s: string, i: nat, p: Pattern): (r: Option<Match>)
    ensures r.Some? ==> r.value.start == i && LiteralAt(s, i, Anchor(p))
    ensures r.Some? ==> i + |Anchor(p)| <= r.value.end <= |s|
  {
    if LiteralAt(s, i, Anchor(p)) then AfterAnchor(s, i, i + |Anchor(p)|, p) else None
  }

  /** What pattern p matches once its literal has been read from i to j. */
  function AfterAnchor(s: string, i: nat, j: nat, p: Pattern): (r: Option<Match>)
    requires i <= j <= |s|
    ensures r.Some? ==> r.value.start == i && j <= r.value.end <= |s|
  {
    match p
    case Template(shape, _) => ShapeAt(s, i, j, shape)
    case OwnerSaveTime => SaveTimeAt(s, i, j)
    case SwVersion => VersionAt(s, i, j)
  }

  /** The first position k in [i, n] where f(k) holds a match. */
  function FirstFrom(f: nat -> Option<Match>, i: nat, n: nat): (r: Option<nat>)
    ensures r.Some? ==> i <= r.value <= n && f(r.value).Some?
    ensures r.Some? ==> forall k :: i <= k < r.value ==> f(k).None?
    ensures r.None? ==> forall k :: i <= k <= n ==> f(k).None?
    decreases n + 1 - i
  {
    if n < i then None
    else if f(i).Some? then Some(i)
    else FirstFrom(f, i + 1, n)
  }

  /** Python's `re.compile(pattern).search(s)`: the match that starts
      leftmost; the scan also tries the empty tail at position |s|. */
  function Search(s: string, p: Pattern): (r: Option<Match>)
    ensures r.Some? ==> r.value.start <= |s| && MatchAt(s, r.value.start, p) == r
    ensures r.Some? ==> forall k :: 0 <= k < r.value.start ==> MatchAt(s, k, p).None?
    ensures r.None? ==> forall k :: 0 <= k <= |s| ==> MatchAt(s, k, p).None?
  {
    var at := (k: nat) => MatchAt(s, k, p);
    assert forall k: nat :: MatchAt(s, k, p) == at(k);
    match FirstFrom(at, 0, |s|)
    case Some(k) => MatchAt(s, k, p)
    case None => None
  }

  /** Group 0, the whole matched text. */
  function Group0(s: string, m: Match): string {
    if m.start <= m.end <= |s| then s[m.start..m.end] else ""
  }
}
