/**
 * The reading normalisation written inline in identify_reading_type.py and
 * get_n1_words.py: an on reading (katakana) is turned into hiragana, a kun
 * reading is cut at its okurigana marker '.'.
 *
 * `jaconv.kata2hira` is a foreign library. It is modelled by this assumption:
 * each katakana letter U+30A1..U+30F6 moves down by 0x60 onto the matching
 * hiragana U+3041..U+3096, and every other character is left as it is.
 */
module Kana {

  /** The katakana letters that have a hiragana counterpart. */
  predicate IsConvertibleKatakana(c: char)
  {
    '\U{30A1}' <= c <= '\U{30F6}'
  }

  /** `jaconv.kata2hira` on one character (the assumption above). */
  function KataToHiraChar(c: char): (h: char)
    ensures IsConvertibleKatakana(c) ==> h as int == c as int - 0x60
    ensures !IsConvertibleKatakana(c) ==> h == c
  {
    if IsConvertibleKatakana(c) then (c as int - 0x60) as char else c
  }

  /** `jaconv.kata2hira` on a string: character by character. */
  function KataToHira(s: string): (r: string)
    ensures |r| == |s|
    ensures forall i :: 0 <= i < |s| ==> r[i] == KataToHiraChar(s[i])
  {
    seq(|s|, i requires 0 <= i < |s| => KataToHiraChar(s[i]))
  }

  /** No katakana letter is left after the conversion. */
  lemma KataToHiraLeavesNoKatakana(s: string)
    ensures forall i :: 0 <= i < |s| ==> !IsConvertibleKatakana(KataToHira(s)[i])
  {
  }

  /** Converting twice is converting once. */
  lemma KataToHiraIdempotent(s: string)
    ensures KataToHira(KataToHira(s)) == KataToHira(s)
  {
  }

  /** `text.split(".")[0]`: everything before the first '.', or all of `text`. */
  function KunRoot(text: string): (root: string)
    ensures root <= text
    ensures '.' !in root
    ensures |root| < |text| ==> text[|root|] == '.'
  {
    if text == [] || text[0] == '.' then []
    else [text[0]] + KunRoot(text[1..])
  }

  /** The root of "root.okurigana" is the root, whatever the okurigana. */
  lemma {:induction false} KunRootOfInflected(root: string, okurigana: string)
    requires '.' !in root
    ensures KunRoot(root + "." + okurigana) == root
  {
    if root != [] {
      assert (root + "." + okurigana)[1..] == root[1..] + "." + okurigana;
      KunRootOfInflected(root[1..], okurigana);
    }
  }

  /** The root ends at the first '.'. */
  lemma {:induction false} KunRootAt(text: string, p: nat)
    requires p < |text| && text[p] == '.'
    requires forall i :: 0 <= i < p ==> text[i] != '.'
    ensures KunRoot(text) == text[..p]
  {
    if p > 0 {
      KunRootAt(text[1..], p - 1);
      assert text[..p] == [text[0]] + text[1..][..p - 1];
    }
  }

  /** A text without '.' is its own root. */
  lemma {:induction false} KunRootOfPlain(text: string)
    requires '.' !in text
    ensures KunRoot(text) == text
  {
    if text != [] {
      KunRootOfPlain(text[1..]);
    }
  }

  /** Cutting twice is cutting once. */
  lemma KunRootIdempotent(text: string)
    ensures KunRoot(KunRoot(text)) == KunRoot(text)
  {
    KunRootOfPlain(KunRoot(text));
  }
}
