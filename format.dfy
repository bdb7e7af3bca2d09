/** The clock display of `formatTime` and the format check of `handleApiKeySubmit`. */
module Format {
  import opened Text

  /** `d.padStart(2, '0')`. */
  function PadTwo(d: string): (r: string)
    ensures |r| == if |d| < 2 then 2 else |d|
  {
    if |d| == 0 then "00" else if |d| == 1 then "0" + d else d
  }

  lemma {:induction false} LeadingZero(d: string)
    requires AllDigits(d)
    ensures AllDigits("0" + d) && DigitsValue("0" + d) == DigitsValue(d)
    decreases |d|
  {
    var z := "0" + d;
    assert AllDigits(z) by {
      forall m | 0 <= m < |z| ensures IsDigit(z[m]) {
        if m > 0 { assert z[m] == d[m - 1]; }
      }
    }
    if d != [] {
      var init := d[..|d| - 1];
      LeadingZero(init);
      assert z[..|z| - 1] == "0" + init;
    }
  }

  /** A decimal numeral padded to two digits keeps its value. */
  lemma PaddedValue(n: nat)
    ensures AllDigits(PadTwo(NatToDecimal(n))) && DigitsValue(PadTwo(NatToDecimal(n))) == n
  {
    DecimalRoundTrip(n);
    var d := NatToDecimal(n);
    if |d| < 2 {
      LeadingZero(d);
    }
  }

  /**
   * `formatTime(seconds)`: "mm:ss" with both fields padded to two digits;
   * the seconds field reads below 60 and minutes * 60 + seconds gives back
   * the input. Minutes may run past two digits, and then carry no leading
   * zero, so the padding never adds more than it must.
   */
  function FormatTime(seconds: nat): (r: string)
    ensures |r| >= 5 && r[|r| - 3] == ':'
    ensures AllDigits(r[..|r| - 3]) && AllDigits(r[|r| - 2..])
    ensures DigitsValue(r[|r| - 2..]) < 60
    ensures DigitsValue(r[..|r| - 3]) * 60 + DigitsValue(r[|r| - 2..]) == seconds
    ensures |r| == 5 || r[0] != '0'
  {
    var mins := PadTwo(NatToDecimal(seconds / 60));
    var secs := PadTwo(NatToDecimal(seconds % 60));
    PaddedValue(seconds / 60);
    PaddedValue(seconds % 60);
    DecimalRoundTrip(seconds % 60);
    assert |NatToDecimal(seconds % 60)| <= 2 by {
      if seconds % 60 >= 10 {
        assert NatToDecimal(seconds % 60) == NatToDecimal(seconds % 60 / 10) + [DigitChar(seconds % 60 % 10)];
      }
    }
    var r := mins + ":" + secs;
    assert r[..|r| - 3] == mins && r[|r| - 2..] == secs;
    assert |mins| > 2 ==> r[0] == mins[0] == NatToDecimal(seconds / 60)[0];
    r
  }

  /** `apiKey.trim().startsWith('sk-')`. */
  predicate KeyAccepted(key: string)
  {
    StartsWith(Trim(key), "sk-")
  }

  /** The leading whitespace of an accepted key, followed by "sk-". */
  ghost predicate PrefixedKey(key: string, i: int)
  {
    0 <= i <= |key| && (forall m :: 0 <= m < i ==> IsSpace(key[m])) && StartsWith(key[i..], "sk-")
  }

  lemma AcceptedKeyIsPrefixed(key: string)
    requires KeyAccepted(key)
    ensures PrefixedKey(key, TrimStartLength(key))
  {
    var a, b := TrimBounds(key);
    var t := Trim(key);
    assert |t| >= 3 && b >= a + 3;
    assert forall k :: 0 <= k < 3 ==> t[k] == key[a + k];
    assert key[a..][..3] == t[..3];
  }

  lemma PrefixedKeyIsAccepted(key: string, i: int)
    requires PrefixedKey(key, i)
    ensures KeyAccepted(key)
  {
    var rest := key[i..];
    assert rest[..3] == "sk-";
    assert key[i] == rest[0] == 's' && key[i + 2] == rest[2] == '-';
    assert !IsSpace('s') && !IsSpace('-');
    TrimFromFirstNonSpace(key, i);
    assert key[i..i + 3] == rest[..3];
  }

  /** When `key[i]` is the first non-space and `key[i + 2]` is no space either, the trimmed key starts with `key[i..i + 3]`. */
  lemma TrimFromFirstNonSpace(key: string, i: nat)
    requires i + 3 <= |key|
    requires forall m :: 0 <= m < i ==> IsSpace(key[m])
    requires !IsSpace(key[i]) && !IsSpace(key[i + 2])
    ensures |Trim(key)| >= 3 && Trim(key)[..3] == key[i..i + 3]
  {
    var a, b := TrimBounds(key);
    var t := Trim(key);
    assert a <= i;
    assert i + 2 < b;
    if a < i {
      assert false;
    }
    assert t[..3] == key[i..i + 3];
  }

  /**
   * A key is accepted exactly when, after some leading whitespace, it starts
   * with "sk-"; trailing whitespace and anything after the prefix are ignored.
   */
  lemma KeyAcceptedIff(key: string)
    ensures KeyAccepted(key) <==> exists i :: PrefixedKey(key, i)
  {
    if KeyAccepted(key) {
      AcceptedKeyIsPrefixed(key);
    }
    if exists i :: PrefixedKey(key, i) {
      var i :| PrefixedKey(key, i);
      PrefixedKeyIsAccepted(key, i);
    }
  }
}
