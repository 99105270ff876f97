/**
 * Extraction of an IMDb title identifier from shared text.
 *
 * The app compiles the regular expression `tt\d+` and returns the text of the
 * first `find()` match, or null. `find()` tries the start positions from left
 * to right, and the greedy `\d+` (with nothing after it in the pattern) takes
 * the longest run of digits, so the result is the leftmost, maximal match.
 *
 * The model reads `\d` as the ASCII digits `[0-9]`, which is what the desktop
 * JVM's engine does for a pattern compiled without flags. Android's regular
 * expressions are backed by ICU, whose `\d` also matches the other Unicode
 * decimal digits; the model does not capture those.
 */
module ImdbId {
  import opened Wrappers

  /** `\d` read as the ASCII digits `0`-`9`. */
  predicate IsDigit(c: char) {
    '0' <= c <= '9'
  }

  /** A match of `tt\d+` can begin at index `i` of `s`. */
  predicate StartsMatch(s: string, i: int) {
    0 <= i && i + 3 <= |s| && s[i] == 't' && s[i + 1] == 't' && IsDigit(s[i + 2])
  }

  /** Some match of `tt\d+` occurs in `s`. */
  ghost predicate HasMatch(s: string) {
    exists i :: StartsMatch(s, i)
  }

  /** The shape of an identifier: the two letters `tt`, then one or more digits. */
  predicate IsImdbIdShape(id: string) {
    && |id| >= 3
    && id[..2] == "tt"
    && forall k :: 2 <= k < |id| ==> IsDigit(id[k])
  }

  /**
   * The declarative meaning of the matcher: `id` occurs in `s` at index `i`,
   * has the identifier's shape, no match begins before `i`, and the digit run
   * cannot be extended (the next character, if any, is not a digit).
   */
  ghost predicate IsLeftmostMatchAt(s: string, i: int, id: string) {
    && StartsMatch(s, i)
    && (forall j :: 0 <= j < i ==> !StartsMatch(s, j))
    && i + |id| <= |s|
    && s[i..i + |id|] == id
    && IsImdbIdShape(id)
    && (i + |id| == |s| || !IsDigit(s[i + |id|]))
  }

  /** The first index at or after `from` where a match begins, as `find()` scans. */
  function FindFrom(s: string, from: nat): (r: Option<nat>)
    decreases |s| - from
    ensures r.None? ==> forall j :: from <= j ==> !StartsMatch(s, j)
    ensures r.Some? ==> from <= r.value && StartsMatch(s, r.value)
    ensures r.Some? ==> forall j :: from <= j < r.value ==> !StartsMatch(s, j)
  {
    if |s| < from + 3 then None
    else if StartsMatch(s, from) then Some(from)
    else FindFrom(s, from + 1)
  }

  /** Where the greedy `\d+` that starts at `from` stops. */
  function DigitRunEnd(s: string, from: nat): (e: nat)
    requires from <= |s|
    decreases |s| - from
    ensures from <= e <= |s|
    ensures forall k :: from <= k < e ==> IsDigit(s[k])
    ensures e == |s| || !IsDigit(s[e])
  {
    if from < |s| && IsDigit(s[from]) then DigitRunEnd(s, from + 1) else from
  }

  /** `extractImdbId`: the text of the first match of `tt\d+`, or nothing. */
  function ExtractImdbId(s: string): (r: Option<string>)
    ensures r.None? <==> !HasMatch(s)
    ensures r.Some? ==> exists i :: IsLeftmostMatchAt(s, i, r.value)
  {
    match FindFrom(s, 0)
    case None => None
    case Some(i) =>
      var e := DigitRunEnd(s, i + 2);
      var id := s[i..e];
      assert id[..2] == "tt";
      assert forall k :: 2 <= k < |id| ==> IsDigit(id[k]) by {
        forall k | 2 <= k < |id| ensures IsDigit(id[k]) { assert id[k] == s[i + k]; }
      }
      assert IsLeftmostMatchAt(s, i, id);
      Some(id)
  }

  /**
   * The declarative description determines the result: whatever is the
   * leftmost maximal match is exactly what the extractor returns.
   */
  lemma LeftmostMatchIsExtracted(s: string, i: int, id: string)
    requires IsLeftmostMatchAt(s, i, id)
    ensures ExtractImdbId(s) == Some(id)
  {
    assert FindFrom(s, 0) == Some(i);
    var end := i + |id|;
    assert forall k :: i + 2 <= k < end ==> IsDigit(s[k]) by {
      forall k | i + 2 <= k < end ensures IsDigit(s[k]) { assert s[k] == id[k - i]; }
    }
    assert DigitRunEnd(s, i + 2) == end;
  }

  /** The two directions together: a result is returned exactly for the leftmost maximal match. */
  lemma ExtractedIffLeftmostMatch(s: string, id: string)
    ensures ExtractImdbId(s) == Some(id) <==> exists i :: IsLeftmostMatchAt(s, i, id)
  {
    if i :| IsLeftmostMatchAt(s, i, id) {
      LeftmostMatchIsExtracted(s, i, id);
    }
  }

  /** A returned identifier has the identifier's shape and occurs in the input. */
  lemma ExtractedIsShapedSubstring(s: string) returns (i: nat)
    requires ExtractImdbId(s).Some?
    ensures var id := ExtractImdbId(s).value;
      IsImdbIdShape(id) && i + |id| <= |s| && s[i..i + |id|] == id
  {
    var id := ExtractImdbId(s).value;
    i :| IsLeftmostMatchAt(s, i, id);
  }

  /** A match that starts one place in: the first `t` of `ttt` cannot begin a match. */
  lemma ExtractOverlapping()
    ensures ExtractImdbId("ttt123") == Some("tt123")
  {
    LeftmostMatchIsExtracted("ttt123", 1, "tt123");
  }

  /** A title link as shared from the IMDb app. */
  lemma ExtractFromLink()
    ensures ExtractImdbId("imdb.com/title/tt0111161/") == Some("tt0111161")
  {
    ghost var s := "imdb.com/title/tt0111161/";
    assert forall j :: 0 <= j < 15 ==> !StartsMatch(s, j) by {
      forall j | 0 <= j < 15 ensures !StartsMatch(s, j) {
        assert s[j] != 't' || s[j + 1] != 't';
      }
    }
    LeftmostMatchIsExtracted(s, 15, "tt0111161");
  }

  /** Only the first of two identifiers is used. */
  lemma ExtractFirstOfTwo()
    ensures ExtractImdbId("tt12 tt34") == Some("tt12")
  {
    LeftmostMatchIsExtracted("tt12 tt34", 0, "tt12");
  }

  /** `tt` with no digit after it is no identifier. */
  lemma ExtractNoDigits()
    ensures ExtractImdbId("tt x") == None
  {
    ghost var s := "tt x";
    assert forall j :: !StartsMatch(s, j) by {
      forall j ensures !StartsMatch(s, j) {
        if 0 <= j < 2 { assert s[j + 2] in " x"; }
      }
    }
  }
}
