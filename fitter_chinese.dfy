/**
 * `is_only_chinese` of zh_learn_ja/fitter_chinese.py: a full match of one
 * character class repeated one or more times.
 */
module FitterChinese {

  /**
   * Python's `\s` on a `str` pattern. Assumed to be the characters that
   * `str.isspace()` accepts: the ASCII controls U+0009–U+000D and
   * U+001C–U+001F, the space, U+0085, U+00A0, U+1680, U+2000–U+200A,
   * U+2028, U+2029, U+202F, U+205F and U+3000.
   */
  predicate IsPythonWhitespace(c: char)
  {
    || '\U{0009}' <= c <= '\U{000D}'
    || '\U{001C}' <= c <= '\U{001F}'
    || c == ' '
    || c == '\U{0085}'
    || c == '\U{00A0}'
    || c == '\U{1680}'
    || '\U{2000}' <= c <= '\U{200A}'
    || c == '\U{2028}'
    || c == '\U{2029}'
    || c == '\U{202F}'
    || c == '\U{205F}'
    || c == '\U{3000}'
  }

  /**
   * The character class of the pattern:
   * CJK unified ideographs, CJK symbols and punctuation, extension A, the
   * compatibility ideographs, the halfwidth and fullwidth forms, and whitespace.
   */
  predicate InClass(c: char)
  {
    || '\U{4E00}' <= c <= '\U{9FFF}'
    || '\U{3000}' <= c <= '\U{303F}'
    || '\U{3400}' <= c <= '\U{4DBF}'
    || '\U{F900}' <= c <= '\U{FAFF}'
    || '\U{FF00}' <= c <= '\U{FFEF}'
    || IsPythonWhitespace(c)
  }

  /** `bool(pattern.fullmatch(text))` for `^[class]+$`: one class character, then none or more. */
  predicate IsOnlyChinese(text: string)
  {
    |text| > 0 && InClass(text[0]) && (|text| == 1 || IsOnlyChinese(text[1..]))
  }

  /** Accepted exactly when non-empty and every character is in the class. */
  lemma {:induction false} IsOnlyChineseIff(text: string)
    ensures IsOnlyChinese(text) <==> |text| > 0 && forall i :: 0 <= i < |text| ==> InClass(text[i])
  {
    if |text| > 1 {
      IsOnlyChineseIff(text[1..]);
      if forall i :: 0 <= i < |text| ==> InClass(text[i]) {
        forall i | 0 <= i < |text[1..]| ensures InClass(text[1..][i]) {
          assert text[1..][i] == text[i + 1];
        }
      }
      if IsOnlyChinese(text) {
        forall i | 0 <= i < |text| ensures InClass(text[i]) {
          if i > 0 {
            assert text[i] == text[1..][i - 1];
          }
        }
      }
    }
  }

  /** The `+` rejects the empty string. */
  lemma EmptyRejected()
    ensures !IsOnlyChinese("")
  {
  }

  /** A string with any hiragana or katakana (U+3040–U+30FF) in it is rejected. */
  lemma KanaRejected(text: string, i: int)
    requires 0 <= i < |text| && '\U{3040}' <= text[i] <= '\U{30FF}'
    ensures !IsOnlyChinese(text)
  {
    IsOnlyChineseIff(text);
    assert !InClass(text[i]);
  }

  /** Two accepted strings joined are accepted. */
  lemma ConcatAccepted(a: string, b: string)
    requires IsOnlyChinese(a) && IsOnlyChinese(b)
    ensures IsOnlyChinese(a + b)
  {
    IsOnlyChineseIff(a);
    IsOnlyChineseIff(b);
    IsOnlyChineseIff(a + b);
    forall i | 0 <= i < |a + b| ensures InClass((a + b)[i]) {
      if i < |a| {
        assert (a + b)[i] == a[i];
      } else {
        assert (a + b)[i] == b[i - |a|];
      }
    }
  }

  /** Every non-empty prefix and every non-empty suffix of an accepted string is accepted. */
  lemma PartsAccepted(text: string, n: int)
    requires IsOnlyChinese(text) && 0 < n < |text|
    ensures IsOnlyChinese(text[..n]) && IsOnlyChinese(text[n..])
  {
    IsOnlyChineseIff(text);
    IsOnlyChineseIff(text[..n]);
    IsOnlyChineseIff(text[n..]);
    forall i | 0 <= i < n ensures InClass(text[..n][i]) {
      assert text[..n][i] == text[i];
    }
    forall i | 0 <= i < |text| - n ensures InClass(text[n..][i]) {
      assert text[n..][i] == text[n + i];
    }
  }

  /** Halfwidth katakana lies in the halfwidth and fullwidth forms, so `ｱ` (U+FF71) is accepted. */
  lemma HalfwidthKatakanaAccepted()
    ensures IsOnlyChinese("\U{FF71}")
  {
  }
}
