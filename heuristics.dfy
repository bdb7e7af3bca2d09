/**
 * Turning the analyzer's free-text reply into an `Analysis`: the greedy
 * `{...}` span tried as JSON first, and otherwise the keyword, vocabulary and
 * sentence heuristics of `parseAIResponse`.
 */
module Heuristics {
  import opened Wrappers
  import opened Text
  import opened Records

  // ---------------------------------------------------------------------
  // extractNumber: the pattern `keyword[:\s]*([0-9]{1,3})`, case-insensitive
  // ---------------------------------------------------------------------

  predicate IsSeparator(c: char)
  {
    c == ':' || IsSpace(c)
  }

  /** End of the run of separators that starts at `from`. */
  function SeparatorRun(s: string, from: nat): (e: nat)
    requires from <= |s|
    ensures from <= e <= |s|
    ensures forall m :: from <= m < e ==> IsSeparator(s[m])
    ensures e == |s| || !IsSeparator(s[e])
    decreases |s| - from
  {
    if from < |s| && IsSeparator(s[from]) then SeparatorRun(s, from + 1) else from
  }

  /** End of the run of at most `limit` digits that starts at `from`. */
  function DigitRun(s: string, from: nat, limit: nat): (e: nat)
    requires from <= |s|
    ensures from <= e <= |s| && e - from <= limit
    ensures forall m :: from <= m < e ==> IsDigit(s[m])
    ensures e == |s| || e - from == limit || !IsDigit(s[e])
    decreases limit
  {
    if limit > 0 && from < |s| && IsDigit(s[from]) then DigitRun(s, from + 1, limit - 1) else from
  }

  /** `s` starts with `keyword`, ignoring ASCII case. */
  predicate KeywordAt(s: string, keyword: string)
  {
    |keyword| <= |s| && Lower(s[..|keyword|]) == Lower(keyword)
  }

  /** The pattern matched at the very start of `s`, and the number it captures. */
  function MatchAt(s: string, keyword: string): (r: Option<nat>)
    ensures r.Some? ==> r.value <= 999
  {
    if !KeywordAt(s, keyword) then None
    else
      var j := SeparatorRun(s, |keyword|);
      var k := DigitRun(s, j, 3);
      if j < k then
        assert AllDigits(s[j..k]);
        assert k - j == 1 || k - j == 2 || k - j == 3;
        Some(DigitsValue(s[j..k]))
      else None
  }

  /**
   * The declarative reading of a match at the start of `s`: the keyword, a
   * maximal run of `:` and whitespace, then one to three digits, as many as
   * there are (greedy), whose value is `v`.
   */
  ghost predicate NumberMatch(s: string, keyword: string, v: nat)
  {
    KeywordAt(s, keyword) && exists j, k :: NumberSpan(s, keyword, j, k, v)
  }

  /** The separators of a match end at `j` and its digits span `j..k`, reading `v`. */
  ghost predicate NumberSpan(s: string, keyword: string, j: int, k: int, v: nat)
  {
    && |keyword| <= j < k <= |s| && k - j <= 3
    && (forall m :: |keyword| <= m < j ==> IsSeparator(s[m]))
    && AllDigits(s[j..k])
    && (k == |s| || k - j == 3 || !IsDigit(s[k]))
    && v == DigitsValue(s[j..k])
  }

  /** A run of separators that stops at a non-separator is the one `SeparatorRun` finds. */
  lemma {:induction false} SeparatorRunUnique(s: string, from: nat, j: nat)
    requires from <= j <= |s|
    requires forall m :: from <= m < j ==> IsSeparator(s[m])
    requires j == |s| || !IsSeparator(s[j])
    ensures SeparatorRun(s, from) == j
    decreases j - from
  {
    if from < j {
      SeparatorRunUnique(s, from + 1, j);
    }
  }

  /** A run of digits that stops at the limit or at a non-digit is the one `DigitRun` finds. */
  lemma {:induction false} DigitRunUnique(s: string, from: nat, limit: nat, k: nat)
    requires from <= k <= |s| && k - from <= limit
    requires forall m :: from <= m < k ==> IsDigit(s[m])
    requires k == |s| || k - from == limit || !IsDigit(s[k])
    ensures DigitRun(s, from, limit) == k
    decreases limit
  {
    if from < k {
      DigitRunUnique(s, from + 1, limit - 1, k);
    }
  }

  lemma NumberMatchIsMatchAt(s: string, keyword: string, v: nat)
    requires NumberMatch(s, keyword, v)
    ensures MatchAt(s, keyword) == Some(v)
  {
    var j, k :| NumberSpan(s, keyword, j, k, v);
    forall m | j <= m < k ensures IsDigit(s[m]) {
      assert s[j..k][m - j] == s[m];
    }
    assert !IsSeparator(s[j]);
    SeparatorRunUnique(s, |keyword|, j);
    DigitRunUnique(s, j, 3, k);
  }

  lemma MatchAtIsNumberMatch(s: string, keyword: string, v: nat)
    requires MatchAt(s, keyword) == Some(v)
    ensures NumberMatch(s, keyword, v)
  {
    var j := SeparatorRun(s, |keyword|);
    var k := DigitRun(s, j, 3);
    assert NumberSpan(s, keyword, j, k, v);
  }

  /** The matcher agrees with the declarative reading of the regular expression, both ways. */
  lemma MatchAtIffNumberMatch(s: string, keyword: string, v: nat)
    ensures MatchAt(s, keyword) == Some(v) <==> NumberMatch(s, keyword, v)
  {
    if NumberMatch(s, keyword, v) {
      NumberMatchIsMatchAt(s, keyword, v);
    }
    if MatchAt(s, keyword) == Some(v) {
      MatchAtIsNumberMatch(s, keyword, v);
    }
  }

  /** `extractNumber`: the number of the leftmost match, or `null` (None). */
  function ExtractNumber(text: string, keyword: string): (r: Option<nat>)
    ensures r.Some? ==> r.value <= 999
    decreases |text|
  {
    var m := MatchAt(text, keyword);
    if m.Some? then m else if text == [] then None else ExtractNumber(text[1..], keyword)
  }

  /**
   * `extractNumber` reads the leftmost match: None exactly when the pattern
   * matches nowhere, otherwise the value captured at the first position where
   * it matches.
   */
  lemma {:induction false} ExtractNumberFirstMatch(text: string, keyword: string)
    ensures ExtractNumber(text, keyword).None? <==>
      forall i, v :: 0 <= i <= |text| ==> !NumberMatch(text[i..], keyword, v)
    ensures ExtractNumber(text, keyword).Some? ==>
      exists i :: 0 <= i <= |text| && NumberMatch(text[i..], keyword, ExtractNumber(text, keyword).value)
        && forall i', v :: 0 <= i' < i ==> !NumberMatch(text[i'..], keyword, v)
    decreases |text|
  {
    var r := ExtractNumber(text, keyword);
    assert text[0..] == text;
    forall v: nat ensures MatchAt(text, keyword) == Some(v) <==> NumberMatch(text[0..], keyword, v) {
      MatchAtIffNumberMatch(text, keyword, v);
    }
    if MatchAt(text, keyword).Some? {
      assert NumberMatch(text[0..], keyword, r.value);
    } else if text == [] {
    } else {
      var tail := text[1..];
      ExtractNumberFirstMatch(tail, keyword);
      forall i | 0 <= i <= |tail| ensures tail[i..] == text[i + 1..] { }
      if r.Some? {
        var i :| 0 <= i <= |tail| && NumberMatch(tail[i..], keyword, r.value)
          && forall i', v :: 0 <= i' < i ==> !NumberMatch(tail[i'..], keyword, v);
        forall i', v | 0 <= i' < i + 1 ensures !NumberMatch(text[i'..], keyword, v) {
          if i' > 0 {
            assert !NumberMatch(tail[i' - 1..], keyword, v);
          }
        }
        assert NumberMatch(text[i + 1..], keyword, r.value);
      } else {
        forall i, v | 0 <= i <= |text| ensures !NumberMatch(text[i..], keyword, v) {
          if i > 0 {
            assert !NumberMatch(tail[i - 1..], keyword, v);
          }
        }
      }
    }
  }

  // ---------------------------------------------------------------------
  // extractActivity, extractDistractions, extractApplications
  // ---------------------------------------------------------------------

  const Activities: seq<string> := ["coding", "writing", "research", "communication", "design", "planning"]
  const DistractionWords: seq<string> := ["social media", "email", "notifications", "multiple tabs"]
  const ApplicationWords: seq<string> := ["chrome", "vscode", "slack", "word", "excel", "figma", "notion"]
  const GeneralWork := "General Work"

  /** Index of the first word of `vocab` that occurs in `lowered` (`Array.prototype.find`). */
  function FirstFound(vocab: seq<string>, lowered: string): (r: Option<nat>)
    ensures r.Some? ==>
      (r.value < |vocab| && Contains(lowered, vocab[r.value])
       && forall k :: 0 <= k < r.value ==> !Contains(lowered, vocab[k]))
    ensures r.None? ==> forall k :: 0 <= k < |vocab| ==> !Contains(lowered, vocab[k])
  {
    if vocab == [] then None
    else if Contains(lowered, vocab[0]) then Some(0)
    else match FirstFound(vocab[1..], lowered)
      case None => None
      case Some(k) => Some(k + 1)
  }

  /** `w.charAt(0).toUpperCase() + w.slice(1)`. */
  function Capitalize(w: string): string
  {
    if w == [] then [] else [UpperChar(w[0])] + w[1..]
  }

  /**
   * `extractActivity`: the capitalised first word of the activity vocabulary
   * found in the lower-cased text, and "General Work" exactly when none is.
   */
  function ExtractActivity(text: string): (r: string)
    ensures r == GeneralWork <==> forall k :: 0 <= k < |Activities| ==> !Contains(Lower(text), Activities[k])
    ensures r != GeneralWork ==>
      exists k ::
        (0 <= k < |Activities| && r == Capitalize(Activities[k])
         && Contains(Lower(text), Activities[k])
         && forall k' :: 0 <= k' < k ==> !Contains(Lower(text), Activities[k']))
  {
    match FirstFound(Activities, Lower(text))
    case None => GeneralWork
    case Some(k) =>
      assert Activities[k][0] != 'g' && Activities[k][0] != 'G';
      assert Capitalize(Activities[k])[0] != 'G';
      Capitalize(Activities[k])
  }

  /** `a` can be obtained from `b` by deleting elements. */
  ghost predicate IsSubsequence<T>(a: seq<T>, b: seq<T>)
    decreases |b|
  {
    if a == [] then true
    else if b == [] then false
    else (a[0] == b[0] && IsSubsequence(a[1..], b[1..])) || IsSubsequence(a, b[1..])
  }

  /** The words of `vocab` that occur in `lowered`, in vocabulary order (`vocab.filter(...)`). */
  function FoundIn(vocab: seq<string>, lowered: string): (r: seq<string>)
    ensures IsSubsequence(r, vocab)
    ensures forall w :: w in r <==> w in vocab && Contains(lowered, w)
  {
    if vocab == [] then []
    else
      var rest := FoundIn(vocab[1..], lowered);
      if Contains(lowered, vocab[0]) then
        assert ([vocab[0]] + rest)[1..] == rest;
        [vocab[0]] + rest
      else rest
  }

  /** `extractDistractions`: the distraction words the text mentions, in vocabulary order. */
  function ExtractDistractions(text: string): (r: seq<string>)
    ensures IsSubsequence(r, DistractionWords)
    ensures forall w :: w in r <==> w in DistractionWords && Contains(Lower(text), w)
  {
    FoundIn(DistractionWords, Lower(text))
  }

  /** `extractApplications`: the application names the text mentions, in vocabulary order. */
  function ExtractApplications(text: string): (r: seq<string>)
    ensures IsSubsequence(r, ApplicationWords)
    ensures forall w :: w in r <==> w in ApplicationWords && Contains(Lower(text), w)
  {
    FoundIn(ApplicationWords, Lower(text))
  }

  // ---------------------------------------------------------------------
  // extractInsights, extractRecommendations
  // ---------------------------------------------------------------------

  function TrimAll(pieces: seq<string>): (r: seq<string>)
    ensures |r| == |pieces|
    ensures forall k :: 0 <= k < |r| ==> r[k] == Trim(pieces[k])
  {
    seq(|pieces|, k requires 0 <= k < |pieces| => Trim(pieces[k]))
  }

  /** `s.trim().length > 10`, the length counted in characters. */
  predicate IsLong(piece: string)
  {
    |Trim(piece)| > 10
  }

  /** `pieces.filter(s => s.trim().length > 10)`. */
  function LongPieces(pieces: seq<string>): seq<string>
  {
    Filter(pieces, IsLong)
  }

  /** A piece of text neither starts nor ends with whitespace and holds no terminator. */
  predicate IsFragment(x: string)
  {
    (x == [] || (!IsSpace(x[0]) && !IsSpace(x[|x| - 1])))
    && forall m :: 0 <= m < |x| ==> !IsTerminator(x[m])
  }

  lemma TrimmedPieceIsFragment(s: string, p: string)
    requires p in SplitSentences(s)
    ensures IsFragment(Trim(p))
  {
    PiecesHoldNoTerminator(s);
    var k :| 0 <= k < |SplitSentences(s)| && SplitSentences(s)[k] == p;
    assert forall m :: 0 <= m < |p| ==> !IsTerminator(p[m]);
    TrimKeepsNoTerminator(p);
  }

  /** Trimming text free of terminators leaves a fragment. */
  lemma TrimKeepsNoTerminator(p: string)
    requires forall m :: 0 <= m < |p| ==> !IsTerminator(p[m])
    ensures IsFragment(Trim(p))
  {
    var t := Trim(p);
    var i, j := TrimBounds(p);
    forall m | 0 <= m < |t| ensures !IsTerminator(t[m]) {
      assert t[m] == p[i + m];
    }
  }

  /** `pieces.slice(0, n).map(s => s.trim())`: the first `n` pieces (all if fewer), each trimmed. */
  lemma FirstTrimmed(pieces: seq<string>, n: nat)
    ensures |TrimAll(Take(pieces, n))| == if |pieces| < n then |pieces| else n
    ensures forall k :: 0 <= k < |TrimAll(Take(pieces, n))| ==> TrimAll(Take(pieces, n))[k] == Trim(pieces[k])
  {
    var chosen := Take(pieces, n);
    assert forall k :: 0 <= k < |chosen| ==> chosen[k] == pieces[k];
  }

  /** Trimmed sentences of a text are fragments. */
  lemma TrimmedPiecesAreFragments(text: string, chosen: seq<string>)
    requires forall p :: p in chosen ==> p in SplitSentences(text)
    ensures forall x :: x in TrimAll(chosen) ==> IsFragment(x)
  {
    var r := TrimAll(chosen);
    forall x | x in r ensures IsFragment(x) {
      var k :| 0 <= k < |r| && r[k] == x;
      assert chosen[k] in chosen;
      TrimmedPieceIsFragment(text, chosen[k]);
    }
  }

  /** Long pieces stay longer than ten characters once trimmed. */
  lemma TrimmedLongPieces(chosen: seq<string>)
    requires forall p :: p in chosen ==> IsLong(p)
    ensures forall x :: x in TrimAll(chosen) ==> |x| > 10
  {
    var r := TrimAll(chosen);
    forall x | x in r ensures |x| > 10 {
      var k :| 0 <= k < |r| && r[k] == x;
      assert IsLong(chosen[k]);
    }
  }


  /** `extractInsights`: at most three sentences. */
  function ExtractInsights(text: string): (r: seq<string>)
    ensures |r| <= 3
  {
    TrimAll(Take(LongPieces(SplitSentences(text)), 3))
  }

  /**
   * The insights are the first three long sentences (fewer if there are
   * fewer), trimmed; there are none exactly when no sentence is that long.
   */
  lemma InsightsAreFirstLongSentences(text: string)
    ensures var r := ExtractInsights(text); var long := LongPieces(SplitSentences(text));
      && |r| == (if |long| < 3 then |long| else 3)
      && (forall k :: 0 <= k < |r| ==> r[k] == Trim(long[k]))
      && (r == [] <==> forall p :: p in SplitSentences(text) ==> !IsLong(p))
  {
    var long := LongPieces(SplitSentences(text));
    FirstTrimmed(long, 3);
    FilterEmpty(SplitSentences(text), IsLong);
  }

  /** The insights stay longer than ten characters once trimmed, and are free of terminators. */
  lemma InsightsAreLongFragments(text: string)
    ensures forall x :: x in ExtractInsights(text) ==> |x| > 10 && IsFragment(x)
  {
    var long := LongPieces(SplitSentences(text));
    var chosen := Take(long, 3);
    FilterMembers(SplitSentences(text), IsLong);
    assert forall p :: p in chosen ==> p in long;
    TrimmedPiecesAreFragments(text, chosen);
    TrimmedLongPieces(chosen);
  }

  predicate Recommends(piece: string)
  {
    var l := Lower(piece);
    Contains(l, "recommend") || Contains(l, "suggest") || Contains(l, "should")
  }

  /** `pieces.filter(s => …includes('recommend') || …('suggest') || …('should'))`. */
  function RecommendingPieces(pieces: seq<string>): seq<string>
  {
    Filter(pieces, Recommends)
  }

  lemma LowerSlice(p: string, a: nat, b: nat)
    requires a <= b <= |p|
    ensures Lower(p[a..b]) == Lower(p)[a..b]
  {
  }

  /** An occurrence that lies within `[a, b)` is an occurrence in the slice `s[a..b]`. */
  lemma OccursInSlice(s: string, w: string, a: nat, b: nat, i: nat)
    requires a <= i && i + |w| <= b <= |s| && OccursAt(s, w, i)
    ensures OccursAt(s[a..b], w, i - a)
  {
    var u := s[a..b][i - a..i - a + |w|];
    assert |u| == |w|;
    forall k | 0 <= k < |w| ensures u[k] == w[k] {
      assert u[k] == s[i + k] == s[i..i + |w|][k];
    }
  }

  /** An occurrence of a word that neither starts nor ends with whitespace lies inside the trimmed slice. */
  lemma OccurrenceInsideTrim(p: string, w: string, i: nat, a: nat, b: nat)
    requires |w| > 0 && !IsSpace(w[0]) && !IsSpace(w[|w| - 1])
    requires OccursAt(Lower(p), w, i)
    requires a <= b <= |p|
    requires forall m :: 0 <= m < a ==> IsSpace(p[m])
    requires forall m :: b <= m < |p| ==> IsSpace(p[m])
    ensures a <= i && i + |w| <= b
  {
    var l := Lower(p);
    assert l[i..i + |w|][0] == w[0];
    assert l[i..i + |w|][|w| - 1] == w[|w| - 1];
    assert !IsSpace(LowerChar(p[i])) && !IsSpace(LowerChar(p[i + |w| - 1]));
  }

  /** Trimming keeps every occurrence of a word that neither starts nor ends with whitespace. */
  lemma TrimKeepsWord(p: string, w: string)
    requires |w| > 0 && !IsSpace(w[0]) && !IsSpace(w[|w| - 1])
    requires Contains(Lower(p), w)
    ensures Contains(Lower(Trim(p)), w)
  {
    var l := Lower(p);
    ContainsIffOccurs(l, w);
    var i :| OccursAt(l, w, i);
    var t := Trim(p);
    var a, b := TrimBounds(p);
    OccurrenceInsideTrim(p, w, i, a, b);
    OccursInSlice(l, w, a, b, i);
    LowerSlice(p, a, b);
    assert Lower(t) == l[a..b];
    assert OccursAt(Lower(t), w, i - a);
    ContainsIffOccurs(Lower(t), w);
  }

  lemma TrimKeepsRecommends(p: string)
    requires Recommends(p)
    ensures Recommends(Trim(p))
  {
    var l := Lower(p);
    if Contains(l, "recommend") {
      TrimKeepsWord(p, "recommend");
    } else if Contains(l, "suggest") {
      TrimKeepsWord(p, "suggest");
    } else {
      TrimKeepsWord(p, "should");
    }
  }

  /** `extractRecommendations`: at most two sentences. */
  function ExtractRecommendations(text: string): (r: seq<string>)
    ensures |r| <= 2
  {
    TrimAll(Take(RecommendingPieces(SplitSentences(text)), 2))
  }

  /**
   * The recommendations are the first two sentences that mention recommend,
   * suggest or should (fewer if there are fewer), trimmed; there are none
   * exactly when no sentence mentions them.
   */
  lemma RecommendationsAreFirstRecommendingSentences(text: string)
    ensures var r := ExtractRecommendations(text); var recommending := RecommendingPieces(SplitSentences(text));
      && |r| == (if |recommending| < 2 then |recommending| else 2)
      && (forall k :: 0 <= k < |r| ==> r[k] == Trim(recommending[k]))
      && (r == [] <==> forall p :: p in SplitSentences(text) ==> !Recommends(p))
  {
    var recommending := RecommendingPieces(SplitSentences(text));
    FirstTrimmed(recommending, 2);
    FilterMembers(SplitSentences(text), Recommends);
    assert recommending != [] ==> recommending[0] in recommending;
  }

  /** The recommendations still mention recommend, suggest or should once trimmed, and are free of terminators. */
  lemma RecommendationsAreFragments(text: string)
    ensures forall x :: x in ExtractRecommendations(text) ==> Recommends(x) && IsFragment(x)
  {
    var recommending := RecommendingPieces(SplitSentences(text));
    var chosen := Take(recommending, 2);
    FilterMembers(SplitSentences(text), Recommends);
    assert forall p :: p in chosen ==> p in recommending;
    TrimmedPiecesAreFragments(text, chosen);
    var r := TrimAll(chosen);
    forall x | x in r ensures Recommends(x) {
      var k :| 0 <= k < |r| && r[k] == x;
      assert chosen[k] in recommending;
      TrimKeepsRecommends(chosen[k]);
    }
  }

  // ---------------------------------------------------------------------
  // extractTimeOfDay and parseAIResponse
  // ---------------------------------------------------------------------

  /** `extractTimeOfDay`, given the local hour the clock reports. */
  function TimeOfDay(hour: int): (r: string)
    ensures r == "morning" <==> hour < 12
    ensures r == "afternoon" <==> 12 <= hour < 17
    ensures r == "evening" <==> 17 <= hour
  {
    if hour < 12 then "morning" else if hour < 17 then "afternoon" else "evening"
  }

  /**
   * `extractNumber(text, keyword) || 50`: the number found, except that a
   * missing number and a zero both become 50; always within 1..999.
   */
  function ScoreOr50(text: string, keyword: string): (r: int)
    ensures 1 <= r <= 999
    ensures ExtractNumber(text, keyword) in {None, Some(0)} ==> r == 50
    ensures ExtractNumber(text, keyword) !in {None, Some(0)} ==> Some(r) == ExtractNumber(text, keyword)
  {
    match ExtractNumber(text, keyword)
    case None => 50
    case Some(v) => if v == 0 then 50 else v
  }

  const AnalysisInProgress := "Analysis in progress"

  /**
   * `parseAIResponse`: the heuristic reading of a reply. Every optional field
   * is present; the three scores lie in 1..999 (they are not clamped to 100)
   * and are 50 when their keyword yields no number or zero; the insights are
   * `extractInsights` even when that is empty, because an empty array is
   * truthy and the `['AI analysis completed']` fallback is never taken.
   */
  function ParseAIResponse(content: string, hour: int): (r: Analysis)
    ensures r.insights.Some? && r.focusLevel.Some? && r.goalAlignment.Some? && r.recommendations.Some?
    ensures 1 <= r.productivityScore <= 999 && 1 <= r.focusLevel.value <= 999 && 1 <= r.goalAlignment.value <= 999
    ensures r.productivityScore == ScoreOr50(content, "productivity")
    ensures r.focusLevel == Some(ScoreOr50(content, "focus"))
    ensures r.goalAlignment == Some(ScoreOr50(content, "goal"))
    ensures r.activity == ExtractActivity(content)
    ensures r.insights == Some(ExtractInsights(content))
    ensures r.distractions == ExtractDistractions(content)
    ensures r.recommendations == Some(ExtractRecommendations(content))
    ensures r.applications == ExtractApplications(content)
    ensures r.workPattern == AnalysisInProgress && r.timeOfDay == TimeOfDay(hour)
  {
    Analysis(
      ScoreOr50(content, "productivity"),
      ExtractActivity(content),
      Some(ExtractInsights(content)),
      Some(ScoreOr50(content, "focus")),
      ExtractDistractions(content),
      Some(ScoreOr50(content, "goal")),
      Some(ExtractRecommendations(content)),
      ExtractApplications(content),
      TimeOfDay(hour),
      AnalysisInProgress)
  }

  // ---------------------------------------------------------------------
  // The structured-first, heuristic-fallback choice of callOpenAIVision
  // ---------------------------------------------------------------------

  function FirstIndex(s: string, c: char): (r: Option<nat>)
    ensures r.Some? ==> r.value < |s| && s[r.value] == c && forall m :: 0 <= m < r.value ==> s[m] != c
    ensures r.None? ==> forall m :: 0 <= m < |s| ==> s[m] != c
  {
    if s == [] then None
    else if s[0] == c then Some(0)
    else match FirstIndex(s[1..], c)
      case None => None
      case Some(k) => Some(k + 1)
  }

  function LastIndex(s: string, c: char): (r: Option<nat>)
    ensures r.Some? ==> r.value < |s| && s[r.value] == c && forall m :: r.value < m < |s| ==> s[m] != c
    ensures r.None? ==> forall m :: 0 <= m < |s| ==> s[m] != c
  {
    if s == [] then None
    else if s[|s| - 1] == c then Some(|s| - 1)
    else LastIndex(s[..|s| - 1], c)
  }

  /**
   * `content.match(/\{[\s\S]*\}/)`: the greedy span from the first `{` to the
   * last `}`, present exactly when some `{` comes before some `}`.
   */
  function BraceSpan(content: string): (r: Option<string>)
    ensures r.None? <==> forall i, j :: 0 <= i < j < |content| && content[i] == '{' ==> content[j] != '}'
    ensures r.Some? ==> exists i, j ::
      (0 <= i < j < |content| && r.value == content[i..j + 1]
       && content[i] == '{' && content[j] == '}'
       && (forall m :: 0 <= m < i ==> content[m] != '{')
       && (forall m :: j < m < |content| ==> content[m] != '}'))
  {
    match FirstIndex(content, '{')
    case None => None
    case Some(i) =>
      match LastIndex(content, '}')
      case None => None
      case Some(j) => if i < j then Some(content[i..j + 1]) else None
  }

  /**
   * The reply handling of `callOpenAIVision`. `parse` stands for `JSON.parse`,
   * None where it throws. A brace span that parses is returned as parsed,
   * with no defaults filled in; otherwise the heuristic reading is returned.
   */
  function Respond(content: string, hour: int, parse: string -> Option<Analysis>): (r: Analysis)
    ensures (BraceSpan(content).Some? && parse(BraceSpan(content).value).Some?)
      ==> r == parse(BraceSpan(content).value).value
    ensures (BraceSpan(content).None? || parse(BraceSpan(content).value).None?)
      ==> r == ParseAIResponse(content, hour)
  {
    match BraceSpan(content)
    case Some(span) =>
      (match parse(span)
       case Some(a) => a
       case None => ParseAIResponse(content, hour))
    case None => ParseAIResponse(content, hour)
  }

  /** A reply with no `{` before a `}` never reaches the JSON parser. */
  lemma NoBracesMeansHeuristics(content: string, hour: int, parse: string -> Option<Analysis>)
    requires forall m :: 0 <= m < |content| ==> content[m] != '{'
    ensures Respond(content, hour, parse) == ParseAIResponse(content, hour)
  {
  }
}
