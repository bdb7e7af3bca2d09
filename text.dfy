/**
 * Character classes and string primitives used by the tracker: JavaScript's
 * whitespace class, ASCII case folding, substring search, `trim`, splitting a
 * reply into sentences on runs of `.`, `!` and `?`, and decimal numerals.
 */
module Text {

  /** The characters of JavaScript's `\s` class; `String.prototype.trim` removes exactly these. */
  predicate IsSpace(c: char)
  {
    c == ' ' || c == '\t' || c == '\n' || c == '\U{B}' || c == '\U{C}' || c == '\r'
    || c == '\U{A0}' || c == '\U{1680}' || ('\U{2000}' <= c <= '\U{200A}')
    || c == '\U{2028}' || c == '\U{2029}' || c == '\U{202F}' || c == '\U{205F}'
    || c == '\U{3000}' || c == '\U{FEFF}'
  }

  predicate IsDigit(c: char)
  {
    '0' <= c <= '9'
  }

  /** Sentence terminators of the pattern `[.!?]+`. */
  predicate IsTerminator(c: char)
  {
    c == '.' || c == '!' || c == '?'
  }

  function LowerChar(c: char): (r: char)
    ensures !('A' <= r <= 'Z')
    ensures r == c || ('A' <= c <= 'Z' && r as int == c as int + 32)
    ensures IsSpace(r) <==> IsSpace(c)
    ensures IsTerminator(r) <==> IsTerminator(c)
  {
    if 'A' <= c <= 'Z' then (c as int + 32) as char else c
  }

  function UpperChar(c: char): char
  {
    if 'a' <= c <= 'z' then (c as int - 32) as char else c
  }

  /** `toLowerCase`, restricted to the ASCII letters. */
  function Lower(s: string): (r: string)
    ensures |r| == |s|
    ensures forall i :: 0 <= i < |s| ==> r[i] == LowerChar(s[i])
  {
    seq(|s|, i requires 0 <= i < |s| => LowerChar(s[i]))
  }

  /** Lower-casing leaves no capital letter behind and moves no character. */
  lemma LowerLeavesNoCapitals(s: string)
    ensures |Lower(s)| == |s|
    ensures forall i :: 0 <= i < |s| ==> !('A' <= Lower(s)[i] <= 'Z')
    ensures forall i :: 0 <= i < |s| && !('A' <= s[i] <= 'Z') ==> Lower(s)[i] == s[i]
  {
  }

  predicate StartsWith(s: string, prefix: string)
  {
    |prefix| <= |s| && s[..|prefix|] == prefix
  }

  /** `s.includes(p)`: `p` occurs somewhere in `s`. */
  predicate Contains(s: string, p: string)
    decreases |s|
  {
    StartsWith(s, p) || (|s| > 0 && Contains(s[1..], p))
  }

  /** The declarative reading of `Contains`: an occurrence at some index. */
  ghost predicate OccursAt(s: string, p: string, i: int)
  {
    0 <= i && i + |p| <= |s| && s[i..i + |p|] == p
  }

  lemma {:induction false} ContainsIffOccurs(s: string, p: string)
    ensures Contains(s, p) <==> exists i :: OccursAt(s, p, i)
    decreases |s|
  {
    if StartsWith(s, p) {
      assert OccursAt(s, p, 0);
    } else if |s| == 0 {
    } else {
      ContainsIffOccurs(s[1..], p);
      if Contains(s[1..], p) {
        var i :| OccursAt(s[1..], p, i);
        assert s[1..][i..i + |p|] == s[i + 1..i + 1 + |p|];
        assert OccursAt(s, p, i + 1);
      } else {
        forall i | 0 <= i ensures !OccursAt(s, p, i) {
          if i == 0 {
            assert |p| <= |s| ==> s[..|p|] == s[0..|p|];
          } else if i + |p| <= |s| {
            assert s[1..][i - 1..i - 1 + |p|] == s[i..i + |p|];
            assert !OccursAt(s[1..], p, i - 1);
          }
        }
      }
    }
  }

  /** `s.filter(keep)`: the elements that pass, in their order. */
  function Filter<T>(s: seq<T>, keep: T -> bool): (r: seq<T>)
    ensures |r| <= |s|
  {
    if s == [] then []
    else (if keep(s[0]) then [s[0]] else []) + Filter(s[1..], keep)
  }

  /** The filter keeps exactly the elements that pass. */
  lemma {:induction false} FilterMembers<T>(s: seq<T>, keep: T -> bool)
    ensures forall x :: x in Filter(s, keep) <==> x in s && keep(x)
  {
    if s != [] {
      FilterMembers(s[1..], keep);
      assert s == [s[0]] + s[1..];
    }
  }

  /**
   * Filtering distributes over concatenation; with the one-element case
   * below this fixes the order and the multiplicity of what is kept.
   */
  lemma {:induction false} FilterAppend<T>(a: seq<T>, b: seq<T>, keep: T -> bool)
    ensures Filter(a + b, keep) == Filter(a, keep) + Filter(b, keep)
  {
    if a == [] {
      assert a + b == b;
    } else {
      var head := if keep(a[0]) then [a[0]] else [];
      assert (a + b)[1..] == a[1..] + b;
      FilterAppend(a[1..], b, keep);
      calc {
        Filter(a + b, keep);
        head + Filter(a[1..] + b, keep);
        head + (Filter(a[1..], keep) + Filter(b, keep));
        (head + Filter(a[1..], keep)) + Filter(b, keep);
        Filter(a, keep) + Filter(b, keep);
      }
    }
  }

  /** A single element is kept or dropped on its own test. */
  lemma FilterSingle<T>(x: T, keep: T -> bool)
    ensures Filter([x], keep) == if keep(x) then [x] else []
  {
    assert [x][1..] == [];
  }

  /** Nothing passes exactly when no element passes. */
  lemma FilterEmpty<T>(s: seq<T>, keep: T -> bool)
    ensures Filter(s, keep) == [] <==> forall x :: x in s ==> !keep(x)
  {
    FilterMembers(s, keep);
    var r := Filter(s, keep);
    assert r != [] ==> r[0] in r;
  }

  /** `s.slice(0, n)`. */
  function Take<T>(s: seq<T>, n: nat): (r: seq<T>)
    ensures |r| <= n && |r| <= |s| && r == s[..|r|]
    ensures |s| <= n ==> r == s
    ensures |s| > n ==> |r| == n
  {
    if |s| <= n then s else s[..n]
  }

  function TrimStart(s: string): (r: string)
    ensures |r| <= |s| && r == s[|s| - |r|..]
    ensures forall m :: 0 <= m < |s| - |r| ==> IsSpace(s[m])
    ensures r == [] || !IsSpace(r[0])
    decreases |s|
  {
    if |s| > 0 && IsSpace(s[0]) then TrimStart(s[1..]) else s
  }

  function TrimEnd(s: string): (r: string)
    ensures |r| <= |s| && r == s[..|r|]
    ensures forall m :: |r| <= m < |s| ==> IsSpace(s[m])
    ensures r == [] || !IsSpace(r[|r| - 1])
    decreases |s|
  {
    if |s| > 0 && IsSpace(s[|s| - 1]) then TrimEnd(s[..|s| - 1]) else s
  }

  /**
   * `s.trim()`: the slice of `s` left once the whitespace at both ends is
   * removed; it neither starts nor ends with whitespace.
   */
  function Trim(s: string): (r: string)
    ensures |r| <= |s|
    ensures r == [] || (!IsSpace(r[0]) && !IsSpace(r[|r| - 1]))
  {
    TrimEnd(TrimStart(s))
  }

  /** A prefix `r` of the suffix `t` of `s` is a slice of `s`, and what follows it in `t` follows it in `s`. */
  lemma SliceOfSuffix(s: string, t: string, r: string)
    requires |t| <= |s| && t == s[|s| - |t|..]
    requires |r| <= |t| && r == t[..|r|]
    ensures r == s[|s| - |t|..|s| - |t| + |r|]
    ensures forall m :: |s| - |t| + |r| <= m < |s| ==> s[m] == t[m - (|s| - |t|)]
  {
  }

  /** Number of whitespace characters `trim` removes at the front. */
  function TrimStartLength(s: string): nat
  {
    |s| - |TrimStart(s)|
  }

  /** Where the slice `Trim(s)` starts and ends within `s`. */
  lemma TrimBounds(s: string) returns (a: nat, b: nat)
    ensures a <= b <= |s| && Trim(s) == s[a..b] && a == TrimStartLength(s)
    ensures forall m :: 0 <= m < a ==> IsSpace(s[m])
    ensures forall m :: b <= m < |s| ==> IsSpace(s[m])
  {
    var t := TrimStart(s);
    var r := TrimEnd(t);
    assert Trim(s) == r;
    SliceOfSuffix(s, t, r);
    a := |s| - |t|;
    b := a + |r|;
    SpacesAfterTrimEnd(s, a, t);
  }

  /** Whatever `trimEnd` removes from the suffix `s[a..]` is whitespace of `s`. */
  lemma SpacesAfterTrimEnd(s: string, a: nat, t: string)
    requires a <= |s| && t == s[a..]
    ensures forall m :: a + |TrimEnd(t)| <= m < |s| ==> IsSpace(s[m])
  {
    var r := TrimEnd(t);
    forall m | a + |r| <= m < |s| ensures IsSpace(s[m]) {
      assert t[m - a] == s[m];
    }
  }

  /** Removes the run of terminators at the front of `s`. */
  function DropTerminators(s: string): (r: string)
    ensures |r| <= |s| && r == s[|s| - |r|..]
    ensures forall m :: 0 <= m < |s| - |r| ==> IsTerminator(s[m])
    ensures r == [] || !IsTerminator(r[0])
    decreases |s|
  {
    if |s| > 0 && IsTerminator(s[0]) then DropTerminators(s[1..]) else s
  }

  /**
   * `s.split(/[.!?]+/)`: the pieces between maximal runs of terminators,
   * including an empty first or last piece when `s` starts or ends with one.
   */
  function SplitSentences(s: string): (pieces: seq<string>)
    ensures |pieces| >= 1
    ensures s != [] && !IsTerminator(s[0]) ==> pieces[0] != []
    decreases |s|
  {
    if s == [] then [[]]
    else if IsTerminator(s[0]) then [[]] + SplitSentences(DropTerminators(s))
    else
      var rest := SplitSentences(s[1..]);
      [[s[0]] + rest[0]] + rest[1..]
  }

  function Concat(pieces: seq<string>): string
  {
    if pieces == [] then [] else pieces[0] + Concat(pieces[1..])
  }

  /** The characters of `s` that are not terminators, in order. */
  function Unterminated(s: string): string
  {
    if s == [] then []
    else if IsTerminator(s[0]) then Unterminated(s[1..])
    else [s[0]] + Unterminated(s[1..])
  }

  lemma {:induction false} UnterminatedDrop(s: string)
    ensures Unterminated(DropTerminators(s)) == Unterminated(s)
    decreases |s|
  {
    if |s| > 0 && IsTerminator(s[0]) {
      UnterminatedDrop(s[1..]);
    }
  }

  /**
   * Splitting loses exactly the terminators: no piece holds one, and the
   * pieces joined back together are `s` with its terminators removed.
   */
  lemma SplitSentencesSound(s: string)
    ensures forall k, m ::
      (0 <= k < |SplitSentences(s)| && 0 <= m < |SplitSentences(s)[k]|
       ==> !IsTerminator(SplitSentences(s)[k][m]))
    ensures Concat(SplitSentences(s)) == Unterminated(s)
  {
    PiecesHoldNoTerminator(s);
    PiecesJoinToUnterminated(s);
  }

  lemma {:induction false} PiecesHoldNoTerminator(s: string)
    ensures forall k, m ::
      (0 <= k < |SplitSentences(s)| && 0 <= m < |SplitSentences(s)[k]|
       ==> !IsTerminator(SplitSentences(s)[k][m]))
    decreases |s|
  {
    if s == [] {
    } else if IsTerminator(s[0]) {
      var d := DropTerminators(s);
      PiecesHoldNoTerminator(d);
      assert SplitSentences(s) == [[]] + SplitSentences(d);
    } else {
      var rest := SplitSentences(s[1..]);
      PiecesHoldNoTerminator(s[1..]);
      var ps := SplitSentences(s);
      assert ps == [[s[0]] + rest[0]] + rest[1..];
      forall k, m | 0 <= k < |ps| && 0 <= m < |ps[k]| ensures !IsTerminator(ps[k][m]) {
        if k == 0 {
          if m > 0 { assert ps[0][m] == rest[0][m - 1]; }
        } else {
          assert ps[k] == rest[k];
        }
      }
    }
  }

  lemma {:induction false} PiecesJoinToUnterminated(s: string)
    ensures Concat(SplitSentences(s)) == Unterminated(s)
    decreases |s|
  {
    if s == [] {
    } else if IsTerminator(s[0]) {
      var d := DropTerminators(s);
      PiecesJoinToUnterminated(d);
      UnterminatedDrop(s);
      assert SplitSentences(s) == [[]] + SplitSentences(d);
      assert Concat(SplitSentences(s)) == [] + Concat(SplitSentences(d));
    } else {
      var rest := SplitSentences(s[1..]);
      PiecesJoinToUnterminated(s[1..]);
      var ps := SplitSentences(s);
      assert ps == [[s[0]] + rest[0]] + rest[1..];
      assert Concat(rest) == rest[0] + Concat(rest[1..]);
      assert ps[1..] == rest[1..];
      calc {
        Concat(ps);
        ([s[0]] + rest[0]) + Concat(rest[1..]);
        [s[0]] + (rest[0] + Concat(rest[1..]));
        [s[0]] + Unterminated(s[1..]);
      }
    }
  }

  /** `pieces[0] + seps[0] + pieces[1] + … + pieces[n - 1]`: neighbouring pieces joined by one separator each. */
  function Interleave(pieces: seq<string>, seps: seq<string>): string
    requires |pieces| == |seps| + 1
    decreases |seps|
  {
    if seps == [] then pieces[0] else pieces[0] + seps[0] + Interleave(pieces[1..], seps[1..])
  }

  /** A non-empty run of `.`, `!` and `?`. */
  predicate IsTerminatorRun(t: string)
  {
    |t| > 0 && forall m :: 0 <= m < |t| ==> IsTerminator(t[m])
  }

  lemma InterleaveCons(c: char, pieces: seq<string>, seps: seq<string>)
    requires |pieces| == |seps| + 1
    ensures Interleave([[c] + pieces[0]] + pieces[1..], seps) == [c] + Interleave(pieces, seps)
  {
    var ps := [[c] + pieces[0]] + pieces[1..];
    if seps != [] {
      assert ps[1..] == pieces[1..];
      assert Interleave(ps, seps) == ([c] + pieces[0]) + seps[0] + Interleave(pieces[1..], seps[1..]);
    }
  }

  /** The runs `SplitSentencesBoundaries` exhibits, as a property of `s`, its pieces and the runs. */
  ghost predicate SplitBy(s: string, pieces: seq<string>, runs: seq<string>)
  {
    && |runs| + 1 == |pieces|
    && (forall k :: 0 <= k < |runs| ==> IsTerminatorRun(runs[k]))
    && (forall k :: 0 < k < |runs| ==> pieces[k] != [])
    && Interleave(pieces, runs) == s
  }

  /** A run of terminators put in front adds an empty first piece and that run. */
  lemma PrependRun(t: string, d: string, pd: seq<string>, rd: seq<string>)
    requires SplitBy(d, pd, rd) && IsTerminatorRun(t)
    requires |pd| > 1 ==> pd[0] != []
    ensures SplitBy(t + d, [[]] + pd, [t] + rd)
  {
    var ps := [[]] + pd;
    var runs := [t] + rd;
    assert ps[1..] == pd && runs[1..] == rd;
    forall k | 0 <= k < |runs| ensures IsTerminatorRun(runs[k]) {
      if k > 0 {
        assert runs[k] == rd[k - 1];
      }
    }
    forall k | 0 < k < |runs| ensures ps[k] != [] {
      assert ps[k] == pd[k - 1];
    }
    assert Interleave(ps, runs) == [] + t + Interleave(pd, rd);
  }

  /** A character put in front of the text joins the first piece and keeps the runs. */
  lemma PrependCharacter(c: char, d: string, pd: seq<string>, rd: seq<string>)
    requires SplitBy(d, pd, rd)
    ensures SplitBy([c] + d, [[c] + pd[0]] + pd[1..], rd)
  {
    var ps := [[c] + pd[0]] + pd[1..];
    forall k | 0 < k < |rd| ensures ps[k] != [] {
      assert ps[k] == pd[k];
    }
    InterleaveCons(c, pd, rd);
  }

  /** A leading run of terminators adds an empty first piece and that run. */
  lemma SplitByTerminator(s: string, rd: seq<string>) returns (runs: seq<string>)
    requires s != [] && IsTerminator(s[0])
    requires SplitBy(DropTerminators(s), SplitSentences(DropTerminators(s)), rd)
    ensures SplitBy(s, SplitSentences(s), runs)
  {
    var d := DropTerminators(s);
    var pd := SplitSentences(d);
    assert |d| < |s|;
    var t := s[..|s| - |d|];
    assert t + d == s;
    if |pd| > 1 {
      assert d != [];
    }
    PrependRun(t, d, pd, rd);
    runs := [t] + rd;
  }

  /** A leading non-terminator joins the first piece and keeps the runs. */
  lemma SplitByCharacter(s: string, runs: seq<string>)
    requires s != [] && !IsTerminator(s[0])
    requires SplitBy(s[1..], SplitSentences(s[1..]), runs)
    ensures SplitBy(s, SplitSentences(s), runs)
  {
    var rest := SplitSentences(s[1..]);
    PrependCharacter(s[0], s[1..], rest, runs);
    assert [s[0]] + s[1..] == s;
  }

  /**
   * The split cuts exactly at the runs of terminators: between neighbouring
   * pieces lies a non-empty run, joining the pieces back with those runs gives
   * `s`, and only the first and the last piece can be empty. With
   * `SplitSentencesSound` (no piece holds a terminator) every run is a maximal
   * one, which fixes the pieces.
   */
  lemma {:induction false} SplitSentencesBoundaries(s: string) returns (runs: seq<string>)
    ensures |runs| + 1 == |SplitSentences(s)|
    ensures forall k :: 0 <= k < |runs| ==> IsTerminatorRun(runs[k])
    ensures forall k :: 0 < k < |runs| ==> SplitSentences(s)[k] != []
    ensures Interleave(SplitSentences(s), runs) == s
    decreases |s|
  {
    if s == [] {
      runs := [];
    } else if IsTerminator(s[0]) {
      var rd := SplitSentencesBoundaries(DropTerminators(s));
      runs := SplitByTerminator(s, rd);
    } else {
      runs := SplitSentencesBoundaries(s[1..]);
      SplitByCharacter(s, runs);
    }
  }

  /** `s.length` in JavaScript: UTF-16 code units, two for each character above U+FFFF. */
  function Utf16Length(s: string): (n: nat)
    ensures |s| <= n <= 2 * |s|
  {
    UnitsFrom(s, 0)
  }

  /** The code units of `s[i..]`, counted by index so that no slice is built. */
  function UnitsFrom(s: string, i: nat): (n: nat)
    requires i <= |s|
    ensures |s| - i <= n <= 2 * (|s| - i)
    decreases |s| - i
  {
    if i == |s| then 0 else (if s[i] as int > 0xFFFF then 2 else 1) + UnitsFrom(s, i + 1)
  }

  /** `s.length === 1`: a single character from the Basic Multilingual Plane. */
  predicate IsOneCodeUnit(s: string)
  {
    |s| == 1 && s[0] as int <= 0xFFFF
  }

  /** The direct test agrees with counting code units. */
  lemma OneCodeUnitIff(s: string)
    ensures IsOneCodeUnit(s) <==> Utf16Length(s) == 1
  {
    if |s| >= 1 {
      assert UnitsFrom(s, 0) == (if s[0] as int > 0xFFFF then 2 else 1) + UnitsFrom(s, 1);
    }
  }

  /** Text with no character above U+FFFF has one code unit per character, and only such text has. */
  lemma Utf16LengthOfBmp(s: string)
    ensures Utf16Length(s) == |s| <==> forall i :: 0 <= i < |s| ==> s[i] as int <= 0xFFFF
  {
    UnitsFromOfBmp(s, 0);
  }

  lemma {:induction false} UnitsFromOfBmp(s: string, i: nat)
    requires i <= |s|
    ensures UnitsFrom(s, i) == |s| - i <==> forall m :: i <= m < |s| ==> s[m] as int <= 0xFFFF
    decreases |s| - i
  {
    if i < |s| {
      UnitsFromOfBmp(s, i + 1);
    }
  }

  function DigitValue(c: char): (d: nat)
    requires IsDigit(c)
    ensures d < 10
  {
    c as int - '0' as int
  }

  function DigitChar(d: nat): (c: char)
    requires d < 10
    ensures IsDigit(c) && DigitValue(c) == d
  {
    ('0' as int + d) as char
  }

  predicate AllDigits(s: string)
  {
    forall m :: 0 <= m < |s| ==> IsDigit(s[m])
  }

  function Pow10(k: nat): (p: nat)
    ensures p >= 1
  {
    if k == 0 then 1 else 10 * Pow10(k - 1)
  }

  /** `parseInt` of a string of decimal digits. */
  function DigitsValue(ds: string): (v: nat)
    requires AllDigits(ds)
    ensures v < Pow10(|ds|)
  {
    if ds == [] then 0
    else DigitsValue(ds[..|ds| - 1]) * 10 + DigitValue(ds[|ds| - 1])
  }

  /** `n.toString()`: the shortest decimal numeral of `n`. */
  function NatToDecimal(n: nat): (r: string)
    ensures |r| >= 1 && AllDigits(r)
    ensures r[0] == '0' ==> n == 0 && r == "0"
  {
    if n < 10 then [DigitChar(n)] else NatToDecimal(n / 10) + [DigitChar(n % 10)]
  }

  /** Reading back the numeral `NatToDecimal` writes yields the number. */
  lemma {:induction false} DecimalRoundTrip(n: nat)
    ensures DigitsValue(NatToDecimal(n)) == n
  {
    if n >= 10 {
      DecimalRoundTrip(n / 10);
      var r := NatToDecimal(n);
      assert r[..|r| - 1] == NatToDecimal(n / 10);
    }
  }

  /** `i.toString()` for an integer that may be negative. */
  function IntToDecimal(i: int): (r: string)
    ensures |r| >= 1
    ensures r[0] == '-' <==> i < 0
  {
    if i < 0 then "-" + NatToDecimal(-i) else NatToDecimal(i)
  }
}
