/** What each template of the pattern library captures: every scanner is
    shown to agree with the scanner-free descriptions of module PatternSpecs. */
module PatternProperties {
  import opened Wrappers
  import opened Text
  import opened ParamPatterns
  import opened PatternSpecs

  // ---------------------------------------------------------------------
  // Anchoring: every template starts at a literal occurrence of name=

  /** A search finds something only where the pattern's literal occurs, and
      it finds nothing in a text that holds no such occurrence. */
  lemma SearchOnlyAtAnchor(s: string, p: Pattern)
    ensures Search(s, p).Some? ==> LiteralAt(s, Search(s, p).value.start, Anchor(p))
    ensures (forall k :: 0 <= k <= |s| ==> !LiteralAt(s, k, Anchor(p))) ==> Search(s, p).None?
  {
  }

  /** At an occurrence of name=, a template matches as its value shape does
      directly after the `=`. */
  lemma TemplateAt(s: string, i: nat, shape: Shape, name: string)
    requires LiteralAt(s, i, name + "=")
    ensures i + |name| + 1 <= |s|
    ensures MatchAt(s, i, Template(shape, name)) == ShapeAt(s, i, i + |name| + 1, shape)
  {
    var p := Template(shape, name);
    assert Anchor(p) == name + "=";
    assert LiteralAt(s, i, Anchor(p));
  }

  /** A repetition stops where the next item does not fit, and its last
      item runs from `last` to `end`. */
  lemma {:induction false} RepeatEnds(s: string, q: nat, item: Item)
    requires q <= |s|
    ensures var r := Repeat(s, q, item);
      && (r.end > q ==> ItemEnd(s, r.last, item) == Some(r.end))
      && ItemEnd(s, r.end, item).None?
    decreases |s| - q
  {
    match ItemEnd(s, q, item)
    case None =>
    case Some(e) =>
      RepeatEnds(s, e, item);
  }

  // ---------------------------------------------------------------------
  // oneFloat: -*\d+\.*\d*, directly after the `=`, longest possible

  lemma {:induction false} FloatRunAt(s: string, j: nat, k: nat)
    requires j <= k <= |s|
    ensures FloatRun(s[j..k]) == FloatStateAt(s, j, k)
    decreases k - j
  {
    if j < k {
      FloatRunAt(s, j, k - 1);
      var t := s[j..k];
      assert t[..|t| - 1] == s[j..k - 1];
      assert t[|t| - 1] == s[k - 1];
      var c := s[k - 1];
      var a := Span(s, j, Dash);
      if k - 1 < a {
        assert In(Dash, s[k - 1]);
      } else if a < |s| && IsDigit(s[a]) {
        var b := Span(s, a, Digit);
        var d := Span(s, b, Dot);
        var e := Span(s, d, Digit);
        if k - 1 < b {
          assert In(Digit, s[k - 1]);
        } else if k - 1 < d {
          assert In(Dot, s[k - 1]);
        } else if k - 1 < e {
          assert In(Digit, s[k - 1]);
        }
      }
    }
  }

  /** The number scanner succeeds at q exactly when some non-empty text
      starting at q has the number shape, and it ends where the longest such
      text ends. */
  lemma FloatEndLongest(s: string, q: nat)
    requires q <= |s|
    ensures FloatEnd(s, q).Some? <==> exists k {:trigger IsFloatText(s[q..k])} :: q < k <= |s| && IsFloatText(s[q..k])
    ensures FloatEnd(s, q).Some? ==>
      var e := FloatEnd(s, q).value;
      IsFloatText(s[q..e]) && forall k {:trigger IsFloatText(s[q..k])} :: e < k <= |s| ==> !IsFloatText(s[q..k])
  {
    forall k | q <= k <= |s| ensures FloatRun(s[q..k]) == FloatStateAt(s, q, k) {
      FloatRunAt(s, q, k);
    }
    match FloatEnd(s, q)
    case Some(e) =>
      assert IsFloatText(s[q..e]);
    case None =>
      forall k | q < k <= |s| ensures !IsFloatText(s[q..k]) {
        assert FloatStateAt(s, q, k) in {Dashes, Dead};
      }
  }

  /** Directly after the `=`, oneFloat matches exactly when some non-empty
      text there has the number shape, and it captures the longest such
      text (no whitespace may come first). */
  lemma OneFloatShape(s: string, i: nat, j: nat)
    requires i <= j <= |s|
    ensures OneFloatAt(s, i, j).Some? <==> NumberStartsAt(s, j)
    ensures var r := OneFloatAt(s, i, j);
      r.Some? ==>
        && r.value.group1 == s[j..r.value.end]
        && IsFloatText(r.value.group1)
        && forall k {:trigger IsFloatText(s[j..k])} :: r.value.end < k <= |s| ==> !IsFloatText(s[j..k])
  {
    FloatEndLongest(s, j);
  }

  // ---------------------------------------------------------------------
  // The count prefix \(\s(?:\d+\,*\s*)+\s\)

  /** The prefix scanner ends at b exactly when s[j..b] is a count prefix;
      so at most one prefix starts at any position. */
  lemma CountPrefixExact(s: string, j: nat, b: nat)
    requires j <= b <= |s|
    ensures CountPrefixEnd(s, j) == Some(b) <==> IsCountPrefix(s, j, b)
  {
    if IsCountPrefix(s, j, b) {
      SpanUnique(s, j + 2, CountChar, b - 1);
    }
  }

  // ---------------------------------------------------------------------
  // oneLineAngleText and angleText: <([\w\.\+\-]+)>

  lemma AngleLabelExact(s: string, j: nat, b: nat)
    requires j <= b <= |s|
    ensures AngleLabelEnd(s, j) == Some(b) <==> IsAngleLabel(s, j, b)
  {
    if IsAngleLabel(s, j, b) {
      SpanUnique(s, j + 1, Label, b - 1);
    }
  }

  /** Directly after the `=`, oneLineAngleText matches exactly when a
      bracketed label follows, and captures the label without its brackets. */
  lemma OneLineAngleTextShape(s: string, i: nat, j: nat)
    requires i <= j <= |s|
    ensures OneLineAngleTextAt(s, i, j).Some? <==> exists b :: IsAngleLabel(s, j, b)
    ensures var r := OneLineAngleTextAt(s, i, j);
      r.Some? ==> IsAngleLabel(s, j, r.value.end) && r.value.group1 == s[j + 1..r.value.end - 1]
  {
    forall b | j <= b <= |s| ensures AngleLabelEnd(s, j) == Some(b) <==> IsAngleLabel(s, j, b) {
      AngleLabelExact(s, j, b);
    }
  }

  /** What angleText captures: after the count prefix and one whitespace
      character, a bracketed label whose inside is group 1. */
  lemma AngleTextCaptures(s: string, i: nat, j: nat)
    requires i <= j <= |s|
    ensures var r := AngleTextAt(s, i, j);
      r.Some? ==>
        && j + |r.value.group1| + 3 <= r.value.end
        && var p := r.value.end - |r.value.group1| - 3;
        && IsCountPrefix(s, j, p) && IsSpace(s[p]) && IsAngleLabel(s, p + 1, r.value.end)
        && r.value.group1 == s[p + 2..r.value.end - 1]
  {
    var r := AngleTextAt(s, i, j);
    if r.Some? {
      var p := PrefixThenSpace(s, j).value;
      CountPrefixExact(s, j, p);
      AngleLabelExact(s, p + 1, r.value.end);
    }
  }

  /** angleText matches wherever a count prefix, one whitespace character
      and a bracketed label follow the `=`. */
  lemma AngleTextMatches(s: string, i: nat, j: nat, p: nat, e: nat)
    requires i <= j <= p < |s| && IsCountPrefix(s, j, p) && IsSpace(s[p]) && IsAngleLabel(s, p + 1, e)
    ensures AngleTextAt(s, i, j) == Some(Match(i, e, s[p + 2..e - 1], ""))
  {
    CountPrefixExact(s, j, p);
    AngleLabelExact(s, p + 1, e);
  }

  // ---------------------------------------------------------------------
  // oneLineText and nextLine: (\w*) and (\w*)\n(\w*)

  /** Directly after the `=`, oneLineText always matches (the run may be
      empty) and captures the longest run of word characters there. */
  lemma OneLineTextShape(s: string, i: nat, j: nat)
    requires i <= j <= |s|
    ensures var r := OneLineTextAt(s, i, j);
      && r.Some?
      && r.value.group1 == s[j..r.value.end]
      && AllIn(s, j, r.value.end, Word)
      && (r.value.end == |s| || !IsWord(s[r.value.end]))
  {
    var e := Span(s, j, Word);
    assert e == |s| || !In(Word, s[e]);
  }

  /** Directly after the `=`, nextLine matches exactly when a run of word
      characters is followed by a newline; it captures that run and the
      longest run of word characters at the start of the next line. */
  lemma NextLineShape(s: string, i: nat, j: nat)
    requires i <= j <= |s|
    ensures NextLineAt(s, i, j).Some?
      <==> exists e :: j <= e < |s| && AllIn(s, j, e, Word) && s[e] == '\n'
    ensures var r := NextLineAt(s, i, j);
      r.Some? ==>
        && var e := j + |r.value.group1|;
        && e < r.value.end && s[e] == '\n'
        && r.value.group1 == s[j..e] && AllIn(s, j, e, Word)
        && r.value.group2 == s[e + 1..r.value.end] && AllIn(s, e + 1, r.value.end, Word)
        && (r.value.end == |s| || !IsWord(s[r.value.end]))
  {
    var r := NextLineAt(s, i, j);
    if exists e :: j <= e < |s| && AllIn(s, j, e, Word) && s[e] == '\n' {
      var e :| j <= e < |s| && AllIn(s, j, e, Word) && s[e] == '\n';
      SpanUnique(s, j, Word, e);
    }
    if r.Some? {
      var e2 := Span(s, Span(s, j, Word) + 1, Word);
      assert e2 == |s| || !In(Word, s[e2]);
    }
  }

  // ---------------------------------------------------------------------
  // textArray: ([\w\s\n]+) after the count prefix and one whitespace

  /** What textArray captures: after the count prefix and one whitespace
      character, the longest non-empty run of word and whitespace characters. */
  lemma TextArrayCaptures(s: string, i: nat, j: nat)
    requires i <= j <= |s|
    ensures var r := TextArrayAt(s, i, j);
      r.Some? ==>
        && j + |r.value.group1| + 1 <= r.value.end
        && var p := r.value.end - |r.value.group1| - 1;
        && IsCountPrefix(s, j, p) && IsSpace(s[p])
        && r.value.group1 == s[p + 1..r.value.end] && p + 1 < r.value.end
        && AllIn(s, p + 1, r.value.end, WordOrSpace)
        && (r.value.end == |s| || !In(WordOrSpace, s[r.value.end]))
  {
    var r := TextArrayAt(s, i, j);
    if r.Some? {
      var p := PrefixThenSpace(s, j).value;
      CountPrefixExact(s, j, p);
    }
  }

  /** textArray matches wherever a count prefix, one whitespace character
      and a word or whitespace character follow the `=`. */
  lemma TextArrayMatches(s: string, i: nat, j: nat, p: nat)
    requires i <= j <= p && p + 1 < |s| && IsCountPrefix(s, j, p) && IsSpace(s[p])
    requires In(WordOrSpace, s[p + 1])
    ensures TextArrayAt(s, i, j).Some?
  {
    CountPrefixExact(s, j, p);
  }

  // ---------------------------------------------------------------------
  // floatArray: ((?:-*\d+\.*\d*[\s\n]*)+) after the count prefix and one whitespace

  /** Every character the repeated number items consume is a digit, a sign,
      a dot or whitespace. */
  lemma {:induction false} FloatRepeatChars(s: string, q: nat)
    requires q <= |s|
    ensures forall m :: q <= m < Repeat(s, q, FloatItem).end ==> FloatListChar(s[m])
    decreases |s| - q
  {
    match ItemEnd(s, q, FloatItem)
    case None =>
    case Some(e) =>
      FloatRepeatChars(s, e);
      var a := Span(s, q, Dash);
      var b := Span(s, a, Digit);
      var c := Span(s, b, Dot);
      var f := Span(s, c, Digit);
      assert e == Span(s, f, Space);
      forall m | q <= m < e ensures FloatListChar(s[m]) {
        if m < a {
          assert In(Dash, s[m]);
        } else if m < b {
          assert In(Digit, s[m]);
        } else if m < c {
          assert In(Dot, s[m]);
        } else if m < f {
          assert In(Digit, s[m]);
        } else {
          assert In(Space, s[m]);
        }
      }
  }

  /** The repeated number items from q form a chain of items that ends
      where the repetition ends. */
  lemma {:induction false} FloatRepeatChain(s: string, q: nat)
    requires q <= |s|
    ensures FloatChain(s, q, Repeat(s, q, FloatItem).end)
    decreases |s| - q
  {
    match ItemEnd(s, q, FloatItem)
    case None =>
    case Some(e) =>
      FloatRepeatChain(s, e);
      FloatEndLongest(s, q);
      var k := FloatEnd(s, q).value;
      assert LongestNumber(s, q, k) && Span(s, k, Space) == e;
  }

  /** At most one text from q is the longest with the number shape. */
  lemma LongestNumberUnique(s: string, q: nat, k1: nat, k2: nat)
    requires q <= k1 <= |s| && q <= k2 <= |s|
    requires LongestNumber(s, q, k1) && LongestNumber(s, q, k2)
    ensures k1 == k2
  {
  }

  /** A non-empty chain of number items starts with a number. */
  lemma FloatChainStarts(s: string, q: nat, e: nat)
    requires q < e <= |s| && FloatChain(s, q, e)
    ensures NumberStartsAt(s, q)
  {
    var k :| q < k <= e && LongestNumber(s, q, k) && Span(s, k, Space) <= e && FloatChain(s, Span(s, k, Space), e);
    assert IsFloatText(s[q..k]);
  }

  /** Two chains of number items from q, each followed by no further
      number, end at the same place. */
  lemma {:induction false} FloatChainUnique(s: string, q: nat, e1: nat, e2: nat)
    requires q <= e1 <= |s| && q <= e2 <= |s|
    requires FloatChain(s, q, e1) && !NumberStartsAt(s, e1)
    requires FloatChain(s, q, e2) && !NumberStartsAt(s, e2)
    ensures e1 == e2
    decreases e1 - q
  {
    if q == e1 && q < e2 {
      FloatChainStarts(s, q, e2);
      assert false;
    } else if q == e2 && q < e1 {
      FloatChainStarts(s, q, e1);
      assert false;
    } else if q < e1 && q < e2 {
      var k1 :| q < k1 <= e1 && LongestNumber(s, q, k1) && Span(s, k1, Space) <= e1 && FloatChain(s, Span(s, k1, Space), e1);
      var k2 :| q < k2 <= e2 && LongestNumber(s, q, k2) && Span(s, k2, Space) <= e2 && FloatChain(s, Span(s, k2, Space), e2);
      LongestNumberUnique(s, q, k1, k2);
      FloatChainUnique(s, Span(s, k1, Space), e1, e2);
    }
  }

  /** The repeated number items from q take s[q..e] exactly when that text
      is a non-empty chain of items, each the longest number at its start
      and all the whitespace after it, followed by no further number. */
  lemma FloatItemsExact(s: string, q: nat, e: nat)
    requires q <= e <= |s|
    ensures FloatItemsFrom(s, q, e) <==> q < Repeat(s, q, FloatItem).end == e
  {
    var run := Repeat(s, q, FloatItem);
    FloatRepeatChain(s, q);
    RepeatEnds(s, q, FloatItem);
    FloatEndLongest(s, run.end);
    if FloatItemsFrom(s, q, e) {
      FloatChainUnique(s, q, e, run.end);
    }
  }

  /** What floatArray captures: after the count prefix and one whitespace
      character, a number, then digits, signs, dots and whitespace, up to a
      point where no further number starts and no whitespace follows. */
  lemma FloatArrayCaptures(s: string, i: nat, j: nat)
    requires i <= j <= |s|
    ensures var r := FloatArrayAt(s, i, j);
      r.Some? ==>
        && j + |r.value.group1| + 1 <= r.value.end
        && var p := r.value.end - |r.value.group1| - 1;
        && IsCountPrefix(s, j, p) && IsSpace(s[p])
        && r.value.group1 == s[p + 1..r.value.end]
        && FloatItemsFrom(s, p + 1, r.value.end)
  {
    var r := FloatArrayAt(s, i, j);
    if r.Some? {
      var p := PrefixThenSpace(s, j).value;
      CountPrefixExact(s, j, p);
      assert r.value.end - |r.value.group1| - 1 == p;
      FloatItemsExact(s, p + 1, r.value.end);
    }
  }

  /** floatArray matches wherever a count prefix, one whitespace character
      and a number follow the `=`. */
  lemma FloatArrayMatches(s: string, i: nat, j: nat, p: nat)
    requires i <= j <= p < |s| && IsCountPrefix(s, j, p) && IsSpace(s[p])
    requires NumberStartsAt(s, p + 1)
    ensures FloatArrayAt(s, i, j).Some?
  {
    CountPrefixExact(s, j, p);
    FloatEndLongest(s, p + 1);
  }

  // ---------------------------------------------------------------------
  // angleTextArray: ((?:(<(?:\w*\s)+\w*>)\s)+)

  lemma AngleTokenExact(s: string, q: nat, b: nat)
    requires q <= b <= |s|
    ensures AngleTokenEnd(s, q) == Some(b) <==> IsAngleToken(s, q, b)
  {
    if IsAngleToken(s, q, b) {
      SpanUnique(s, q + 1, WordOrSpace, b - 1);
    }
  }

  /** The repeated token items from q form a chain of items whose last
      token starts where the repetition's last item does. */
  lemma {:induction false} AngleRepeatChain(s: string, q: nat)
    requires q <= |s|
    ensures var run := Repeat(s, q, AngleItem);
      q < run.end ==> AngleChain(s, q, run.last, run.end)
    decreases |s| - q
  {
    match ItemEnd(s, q, AngleItem)
    case None =>
    case Some(e) =>
      AngleRepeatChain(s, e);
      var b := AngleTokenEnd(s, q).value;
      AngleTokenExact(s, q, b);
      assert b + 1 == e;
  }

  /** Two chains of token items from q, each followed by no further item,
      end at the same place with the same last token. */
  lemma {:induction false} AngleChainUnique(s: string, q: nat, g1: nat, e1: nat, g2: nat, e2: nat)
    requires q <= e1 <= |s| && q <= e2 <= |s|
    requires AngleChain(s, q, g1, e1) && NoTokenItemAt(s, e1)
    requires AngleChain(s, q, g2, e2) && NoTokenItemAt(s, e2)
    ensures g1 == g2 && e1 == e2
    decreases e1 - q
  {
    var b1 :| && q < b1 < e1 && IsAngleToken(s, q, b1) && IsSpace(s[b1])
              && ((b1 + 1 == e1 && g1 == q) || (b1 + 1 < e1 && AngleChain(s, b1 + 1, g1, e1)));
    var b2 :| && q < b2 < e2 && IsAngleToken(s, q, b2) && IsSpace(s[b2])
              && ((b2 + 1 == e2 && g2 == q) || (b2 + 1 < e2 && AngleChain(s, b2 + 1, g2, e2)));
    AngleTokenExact(s, q, b1);
    AngleTokenExact(s, q, b2);
    if b1 + 1 < e1 && b2 + 1 < e2 {
      AngleChainUnique(s, b1 + 1, g1, e1, g2, e2);
    } else if b1 + 1 < e1 {
      assert false;
    } else if b2 + 1 < e2 {
      assert false;
    }
  }

  /** A repetition of token items stops where no further item starts. */
  lemma AngleRepeatStops(s: string, q: nat)
    requires q <= |s|
    ensures NoTokenItemAt(s, Repeat(s, q, AngleItem).end)
  {
    var run := Repeat(s, q, AngleItem);
    RepeatEnds(s, q, AngleItem);
    forall f | run.end <= f < |s| && IsAngleToken(s, run.end, f) ensures !IsSpace(s[f]) {
      AngleTokenExact(s, run.end, f);
    }
  }

  /** Where a chain of token items starts, the repetition takes at least
      one item. */
  lemma AngleChainRepeats(s: string, q: nat, g: nat, e: nat)
    requires q <= e <= |s| && AngleChain(s, q, g, e)
    ensures q < Repeat(s, q, AngleItem).end
  {
    var b :| q < b < e && IsAngleToken(s, q, b) && IsSpace(s[b])
             && ((b + 1 == e && g == q) || (b + 1 < e && AngleChain(s, b + 1, g, e)));
    AngleTokenExact(s, q, b);
    assert ItemEnd(s, q, AngleItem) == Some(b + 1);
  }

  /** The repeated token items from q take s[q..e], the last token starting
      at g, exactly when that text is a chain of items, each a bracketed
      token and one whitespace character, followed by no further item. */
  lemma AngleItemsExact(s: string, q: nat, g: nat, e: nat)
    requires q <= e <= |s|
    ensures AngleItemsFrom(s, q, g, e) <==> q < e && Repeat(s, q, AngleItem) == Run(g, e)
  {
    var run := Repeat(s, q, AngleItem);
    AngleRepeatChain(s, q);
    AngleRepeatStops(s, q);
    if AngleItemsFrom(s, q, g, e) {
      AngleChainRepeats(s, q, g, e);
      AngleChainUnique(s, q, g, e, run.last, run.end);
    }
  }

  /** What angleTextArray captures, first part: group 1 follows the count
      prefix and one whitespace character, and runs to the end of the match. */
  lemma AngleTextArrayPrefix(s: string, i: nat, j: nat)
    requires i <= j <= |s|
    ensures var r := AngleTextArrayAt(s, i, j);
      r.Some? ==>
        && j + |r.value.group1| + 1 <= r.value.end
        && var p := r.value.end - |r.value.group1| - 1;
        && IsCountPrefix(s, j, p) && IsSpace(s[p])
        && r.value.group1 == s[p + 1..r.value.end]
  {
    var r := AngleTextArrayAt(s, i, j);
    if r.Some? {
      CountPrefixExact(s, j, PrefixThenSpace(s, j).value);
    }
  }

  /** The groups a run of token items leaves in its match: group 1 is the
      whole run and group 2 its last token. */
  lemma AngleRunGroups(s: string, i: nat, q: nat)
    requires i <= q <= |s|
    ensures var r := AngleRunAt(s, i, q);
      r.Some? ==> AngleItemsGroups(s, r.value)
  {
    var run := Repeat(s, q, AngleItem);
    if q < run.end {
      AngleItemsExact(s, q, run.last, run.end);
      var m := AngleRunAt(s, i, q).value;
      assert m.end - |m.group1| == q;
      assert m.end - |m.group2| - 1 == run.last;
    }
  }

  /** What angleTextArray captures, second part: group 1 is the run of
      bracketed tokens, each followed by one whitespace character, that stops
      where no further token starts; group 2 is the last of those tokens. */
  lemma AngleTextArrayItems(s: string, i: nat, j: nat)
    requires i <= j <= |s|
    ensures var r := AngleTextArrayAt(s, i, j);
      r.Some? ==> AngleItemsGroups(s, r.value)
  {
    if PrefixThenSpace(s, j).Some? {
      AngleRunGroups(s, i, PrefixThenSpace(s, j).value + 1);
    }
  }

  /** angleTextArray matches wherever a count prefix, one whitespace
      character, and a bracketed token followed by whitespace follow the `=`. */
  lemma AngleTextArrayMatches(s: string, i: nat, j: nat, p: nat, e: nat)
    requires i <= j <= p < e < |s| && IsCountPrefix(s, j, p) && IsSpace(s[p])
    requires IsAngleToken(s, p + 1, e) && IsSpace(s[e])
    ensures AngleTextArrayAt(s, i, j).Some?
  {
    CountPrefixExact(s, j, p);
    AngleTokenExact(s, p + 1, e);
  }

  // ---------------------------------------------------------------------
  // comment: count prefix, newline, <.*>

  /** What comment matches: group 0 runs to a `>` of the line that follows
      the count prefix, and no later `>` is on that line (`.*` is greedy). */
  lemma CommentCaptures(s: string, i: nat, j: nat)
    requires i <= j <= |s|
    ensures var r := CommentAt(s, i, j);
      r.Some? ==>
        && j + 3 < r.value.end
        && CommentEndsAt(s, j, r.value.end - 1)
        && forall m :: r.value.end <= m < Span(s, r.value.end, NotNewline) ==> s[m] != '>'
  {
    var r := CommentAt(s, i, j);
    if r.Some? {
      var p := PrefixThenSpace(s, j).value;
      CountPrefixExact(s, j, p);
      var lineEnd := Span(s, p + 2, NotNewline);
      var g := r.value.end - 1;
      assert In(NotNewline, s[g]);
      assert CommentLine(s, j, p, g);
      SpanUnique(s, r.value.end, NotNewline, lineEnd);
    }
  }

  /** comment matches wherever a count prefix, a newline, `<` and a `>` on
      that line follow the `=`. */
  lemma CommentMatches(s: string, i: nat, j: nat, p: nat, g: nat)
    requires i <= j && CommentLine(s, j, p, g)
    ensures CommentAt(s, i, j).Some?
  {
    CountPrefixExact(s, j, p);
    assert AllIn(s, p + 2, g + 1, NotNewline) by {
      assert In(NotNewline, s[g]);
    }
    SpanCovers(s, p + 2, NotNewline, g + 1);
    assert s[g] == '>';
  }

  // ---------------------------------------------------------------------
  // The save-time pattern: ##OWNER=(?:\w+)\s\$\$\s([ -0-9+.-:]+)

  /** What the save-time pattern captures: the owner field, then group 1,
      the longest non-empty run of characters from space to `:`. */
  lemma SaveTimeCaptures(s: string, i: nat, j: nat)
    requires i <= j <= |s|
    ensures var r := SaveTimeAt(s, i, j);
      r.Some? ==>
        && j + |r.value.group1| + 4 < r.value.end
        && var w := r.value.end - |r.value.group1| - 4;
        && IsOwnerField(s, j, w)
        && r.value.group1 != []
        && r.value.group1 == s[w + 4..r.value.end]
        && AllIn(s, w + 4, r.value.end, TimeChar)
        && (r.value.end == |s| || !In(TimeChar, s[r.value.end]))
  {
  }

  /** The save-time pattern matches wherever the owner field and at least
      one time character follow `##OWNER=`. */
  lemma SaveTimeMatches(s: string, i: nat, j: nat, w: nat, e: nat)
    requires i <= j && IsOwnerField(s, j, w) && w + 4 < e <= |s|
    requires AllIn(s, w + 4, e, TimeChar) && (e == |s| || !In(TimeChar, s[e]))
    ensures SaveTimeAt(s, i, j) == Some(Match(i, e, s[w + 4..e], ""))
  {
    assert !IsWord(s[w]);
    SpanUnique(s, j, Word, w);
    SpanUnique(s, w + 4, TimeChar, e);
  }

  // ---------------------------------------------------------------------
  // The version pattern: \(\s\d+\s\)\s\<(PV (\d+)\.\d+\.*\d*)\>

  lemma ParenNumberExact(s: string, j: nat, b: nat)
    requires j <= b <= |s|
    ensures ParenNumberEnd(s, j) == Some(b) <==> IsParenNumber(s, j, b)
  {
    if IsParenNumber(s, j, b) {
      SpanUnique(s, j + 2, Digit, b - 2);
    }
  }

  /** The label at q: group 1 runs from q to the `>`, and group 2 is the
      digit run after `PV `. */
  lemma VersionLabelCaptures(s: string, i: nat, q: nat)
    requires i <= q <= |s|
    ensures var r := VersionLabelAt(s, i, q);
      r.Some? ==> VersionGroups(s, q, r.value)
  {
    var r := VersionLabelAt(s, i, q);
    if r.Some? {
      DigitsDotsDigits(s, q + 3 + |r.value.group2| + 1);
    }
  }

  /** From a digit at k, the runs of digits, dots and digits form a text
      of the number shape. */
  lemma DigitsDotsDigits(s: string, k: nat)
    requires k < |s| && IsDigit(s[k])
    ensures IsFloatText(s[k..Span(s, Span(s, Span(s, k, Digit), Dot), Digit)])
  {
    FloatRunAt(s, k, Span(s, Span(s, Span(s, k, Digit), Dot), Digit));
    assert Span(s, k, Dash) == k;
  }

  /** A text of the number shape from a digit at k, followed by a
      character that is neither a digit nor a dot, ends where the runs of
      digits, dots and digits from k end. */
  lemma DigitsDotsDigitsEnd(s: string, k: nat, e: nat)
    requires k < e < |s| && IsDigit(s[k]) && IsFloatText(s[k..e])
    requires !IsDigit(s[e]) && s[e] != '.'
    ensures e == Span(s, Span(s, Span(s, k, Digit), Dot), Digit)
  {
    FloatRunAt(s, k, e);
    assert Span(s, k, Dash) == k;
    var c := Span(s, k, Digit);
    var d := Span(s, c, Dot);
    var f := Span(s, d, Digit);
    assert e <= f;
    assert !In(Digit, s[e]) && !In(Dot, s[e]);
  }

  /** Conversely, a version label at q followed by `>` is what the label
      scanner matches there, with those groups. */
  lemma VersionLabelMatches(s: string, i: nat, q: nat, b: nat, e: nat)
    requires i <= q && IsVersionLabel(s, q, b, e)
    ensures VersionLabelAt(s, i, q) == Some(Match(i, e + 1, s[q..e], s[q + 3..b]))
  {
    SpanUnique(s, q + 3, Digit, b);
    DigitsDotsDigitsEnd(s, b + 1, e);
  }

  /** A label found after the bracketed count, whitespace and `<`. */
  lemma VersionParts(s: string, i: nat, j: nat, p: nat, m: Match)
    requires i <= j <= |s| && ParenNumberEnd(s, j) == Some(p)
    requires p + 2 <= |s| && IsSpace(s[p]) && s[p + 1] == '<'
    requires VersionLabelAt(s, i, p + 2) == Some(m)
    ensures VersionPrefix(s, j, p + 2) && VersionGroups(s, p + 2, m)
  {
    ParenNumberExact(s, j, p);
    VersionLabelCaptures(s, i, p + 2);
  }

  /** What the version pattern captures: after the bracketed count, one
      whitespace character and `<`, group 1 runs to the `>` that ends the
      match and reads `PV `, the digit run that is group 2, a dot and a
      digit. */
  lemma VersionCaptures(s: string, i: nat, j: nat)
    requires i <= j <= |s|
    ensures var r := VersionAt(s, i, j);
      r.Some? ==> VersionMatch(s, j, r.value)
  {
    var r := VersionAt(s, i, j);
    if r.Some? {
      var p := ParenNumberEnd(s, j).value;
      VersionParts(s, i, j, p, r.value);
    }
  }

  /** A match that the search finds is what the pattern's part after the
      anchor matches there. */
  lemma SearchAfterAnchor(s: string, p: Pattern)
    ensures var r := Search(s, p);
      r.Some? ==>
        r.value.start + |Anchor(p)| <= |s|
        && AfterAnchor(s, r.value.start, r.value.start + |Anchor(p)|, p) == r
  {
  }

  /** What VersionGroups says about the two captured strings on their own. */
  lemma VersionGroupsText(s: string, q: nat, m: Match)
    requires VersionGroups(s, q, m)
    ensures IsVersionCapture(m.group1, m.group2)
  {
    var b := q + 3 + |m.group2|;
    var e := m.end - 1;
    assert m.group1 == s[q..e];
    assert m.group1[..3] == s[q..q + 3] by {
      assert forall k :: 0 <= k < 3 ==> m.group1[k] == s[q + k];
    }
    assert m.group1[3..3 + |m.group2|] == s[q + 3..b] by {
      assert forall k :: 3 <= k < 3 + |m.group2| ==> m.group1[k] == s[q + k];
    }
    assert m.group1[4 + |m.group2|..] == s[b + 1..e] by {
      assert forall k :: 4 + |m.group2| <= k < |m.group1| ==> m.group1[k] == s[q + k];
    }
    forall c | c in m.group2 ensures IsDigit(c) {
      var k :| 0 <= k < |m.group2| && m.group2[k] == c;
      assert s[q + 3 + k] == c;
      assert In(Digit, s[q + 3 + k]);
    }
  }

  /** What the version pattern leaves once its literal has been read up to
      j has captures of the version-label shape. */
  lemma VersionAnchorCaptures(s: string, i: nat, j: nat)
    requires i <= j <= |s|
    ensures var r := AfterAnchor(s, i, j, SwVersion);
      r.Some? ==> IsVersionCapture(r.value.group1, r.value.group2)
  {
    var r := VersionAt(s, i, j);
    if r.Some? {
      var p := ParenNumberEnd(s, j).value;
      VersionParts(s, i, j, p, r.value);
      VersionGroupsText(s, p + 2, r.value);
    }
  }

  /** The same for a match of the whole version pattern at i. */
  lemma VersionMatchAtCaptures(s: string, i: nat)
    ensures var r := MatchAt(s, i, SwVersion);
      r.Some? ==> IsVersionCapture(r.value.group1, r.value.group2)
  {
    if LiteralAt(s, i, Anchor(SwVersion)) {
      var j := i + |Anchor(SwVersion)|;
      assert MatchAt(s, i, SwVersion) == AfterAnchor(s, i, j, SwVersion);
      VersionAnchorCaptures(s, i, j);
    }
  }

  /** A search for the version record captures a version label and its
      major number. */
  lemma VersionSearchCaptures(s: string)
    ensures var r := Search(s, SwVersion);
      r.Some? ==> IsVersionCapture(r.value.group1, r.value.group2)
  {
    var r := Search(s, SwVersion);
    if r.Some? {
      VersionMatchAtCaptures(s, r.value.start);
    }
  }

}
