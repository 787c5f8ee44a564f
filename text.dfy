/** The string primitives the modelled code leans on: `s.replace(/\D/g, "")`,
    `s.trim()` tested for emptiness, ASCII `toLowerCase`, `includes` and
    `split` on one character. JavaScript strings are sequences of UTF-16 code
    units; here a string is a `seq<char>` and only ASCII behaviour is modelled. */
module Text {

  /** JavaScript's `\d`: the ASCII digits only. */
  predicate IsDigit(c: char) {
    '0' <= c <= '9'
  }

  predicate AllDigits(s: string) {
    forall i :: 0 <= i < |s| ==> IsDigit(s[i])
  }

  /** `s.replace(/\D/g, "")`: the digits of `s`, in order. */
  function Digits(s: string): (d: string)
    ensures |d| <= |s|
    ensures AllDigits(d)
  {
    if s == [] then []
    else if IsDigit(s[0]) then [s[0]] + Digits(s[1..])
    else Digits(s[1..])
  }

  lemma {:induction false} DigitsConcat(a: string, b: string)
    ensures Digits(a + b) == Digits(a) + Digits(b)
  {
    if a == [] {
      assert a + b == b;
    } else {
      assert (a + b)[1..] == a[1..] + b;
      DigitsConcat(a[1..], b);
    }
  }

  /** A string made of digits only is left alone by the cleaning step. */
  lemma {:induction false} DigitsOfDigitString(s: string)
    requires AllDigits(s)
    ensures Digits(s) == s
  {
    if s != [] {
      DigitsOfDigitString(s[1..]);
    }
  }

  /** Cleaning twice is cleaning once. */
  lemma DigitsIdempotent(s: string)
    ensures Digits(Digits(s)) == Digits(s)
  {
    DigitsOfDigitString(Digits(s));
  }

  /** Digits are kept and separators dropped: cleaning removes exactly the
      non-digit characters. */
  lemma {:induction false} DigitsCountsDigits(s: string)
    ensures |Digits(s)| == |s| <==> AllDigits(s)
  {
    if s != [] {
      DigitsCountsDigits(s[1..]);
      if AllDigits(s) {
        assert AllDigits(s[1..]) by {
          forall i | 0 <= i < |s[1..]| ensures IsDigit(s[1..][i]) {
            assert s[1..][i] == s[i + 1];
          }
        }
      } else if IsDigit(s[0]) {
        var k :| 0 <= k < |s| && !IsDigit(s[k]);
        assert s[1..][k - 1] == s[k];
      }
    }
  }

  /** The characters `String.prototype.trim` removes, restricted to ASCII. */
  predicate IsSpace(c: char) {
    c == ' ' || c == '\t' || c == '\n' || c == '\r' || c == '\U{B}' || c == '\U{C}'
  }

  /** `!s.trim()`: the string is empty once surrounding white space is trimmed. */
  predicate IsBlank(s: string) {
    forall i :: 0 <= i < |s| ==> IsSpace(s[i])
  }

  /** ASCII `toLowerCase` of one character. */
  function LowerChar(c: char): (r: char)
    ensures 'A' <= c <= 'Z' ==> r as int == c as int + 32
    ensures !('A' <= c <= 'Z') ==> r == c
  {
    if 'A' <= c <= 'Z' then (c as int + 32) as char else c
  }

  function Lower(s: string): (r: string)
    ensures |r| == |s|
    ensures forall i :: 0 <= i < |s| ==> r[i] == LowerChar(s[i])
  {
    if s == [] then [] else [LowerChar(s[0])] + Lower(s[1..])
  }

  /** `hay.includes(needle)`: `needle` occurs in `hay` at some position. */
  predicate Contains(hay: string, needle: string)
    decreases |hay|
  {
    needle <= hay || (hay != [] && Contains(hay[1..], needle))
  }

  lemma {:induction false} ContainsAt(hay: string, needle: string)
    ensures Contains(hay, needle) <==>
            exists k :: 0 <= k <= |hay| - |needle| && needle <= hay[k..]
    decreases |hay|
  {
    if hay == [] {
    } else {
      ContainsAt(hay[1..], needle);
      if Contains(hay[1..], needle) {
        var k :| 0 <= k <= |hay[1..]| - |needle| && needle <= hay[1..][k..];
        assert hay[1..][k..] == hay[k + 1..];
      }
      if exists k :: 0 <= k <= |hay| - |needle| && needle <= hay[k..] {
        var k :| 0 <= k <= |hay| - |needle| && needle <= hay[k..];
        if k == 0 {
          assert hay[0..] == hay;
        } else {
          assert hay[1..][k - 1..] == hay[k..];
          assert 0 <= k - 1 <= |hay[1..]| - |needle| && needle <= hay[1..][k - 1..];
          assert Contains(hay[1..], needle);
        }
        assert Contains(hay, needle);
      }
    }
  }

  /** `s.split(sep)` for a one-character separator: the maximal runs between
      separators, so always at least one (possibly empty) part. */
  function SplitOn(s: string, sep: char): (parts: seq<string>)
    ensures |parts| >= 1
    ensures forall i :: 0 <= i < |parts| ==> sep !in parts[i]
  {
    if s == [] then [[]]
    else if s[0] == sep then [[]] + SplitOn(s[1..], sep)
    else
      var rest := SplitOn(s[1..], sep);
      [[s[0]] + rest[0]] + rest[1..]
  }

  /** A string without the separator is its own single part. */
  lemma {:induction false} SplitOnNoSeparator(s: string, sep: char)
    requires sep !in s
    ensures SplitOn(s, sep) == [s]
  {
    if s != [] {
      SplitOnNoSeparator(s[1..], sep);
      assert [s[0]] + s[1..] == s;
    }
  }

  /** Splitting `a + [sep] + b`, where `a` has no separator, yields `a` and
      then the parts of `b`. */
  lemma {:induction false} SplitOnFirstSeparator(a: string, b: string, sep: char)
    requires sep !in a
    ensures SplitOn(a + [sep] + b, sep) == [a] + SplitOn(b, sep)
  {
    if a == [] {
      assert a + [sep] + b == [sep] + b;
      assert ([sep] + b)[1..] == b;
    } else {
      var s := a + [sep] + b;
      assert s[0] == a[0] && s[1..] == a[1..] + [sep] + b;
      SplitOnFirstSeparator(a[1..], b, sep);
      assert [a[0]] + a[1..] == a;
    }
  }

  /** The first part of a split is the longest separator-free prefix. */
  lemma {:induction false} SplitOnFirstPart(s: string, sep: char)
    ensures SplitOn(s, sep)[0] <= s
    ensures sep in s ==> s[|SplitOn(s, sep)[0]|] == sep
    ensures sep !in s ==> SplitOn(s, sep)[0] == s
  {
    if s != [] && s[0] != sep {
      SplitOnFirstPart(s[1..], sep);
      if sep in s {
        assert sep in s[1..];
      }
    }
  }
}
