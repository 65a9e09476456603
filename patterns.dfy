/**
 * The regular expressions the Gmail readers apply to a message body, as functions over the
 * decoded text:
 *   `\b(\d{6})\b` searched (`re.search`) and collected (`re.findall`),
 *   `account\s+(\d{6})` searched with `re.IGNORECASE`,
 *   `<[^<]+?>` replaced by "" (`re.sub`), the tag stripping of HTML bodies.
 */
module Patterns {
  import opened Wrappers
  import opened Text

  const ZeroCode: string := "000000"

  // ---------------------------------------------------------------------------
  // \b(\d{6})\b

  /** A match of `\b(\d{6})\b` starts at i: six digits with no word character on either side. */
  predicate SixDigitAt(s: string, i: int) {
    0 <= i && i + 6 <= |s| && (forall k | i <= k < i + 6 :: IsDigit(s[k]))
    && (i == 0 || !IsWordChar(s[i - 1]))
    && (i + 6 == |s| || !IsWordChar(s[i + 6]))
  }

  /** The leftmost match at or after i, as `re.search` finds it. */
  function SearchSixDigitFrom(s: string, i: nat): (r: Option<nat>)
    requires i <= |s|
    ensures r.Some? ==> i <= r.value && SixDigitAt(s, r.value)
    ensures r.Some? ==> forall j | i <= j < r.value :: !SixDigitAt(s, j)
    ensures r.None? ==> forall j | i <= j <= |s| :: !SixDigitAt(s, j)
    decreases |s| - i
  {
    if i + 6 > |s| then None
    else if SixDigitAt(s, i) then Some(i)
    else SearchSixDigitFrom(s, i + 1)
  }

  /** `re.search(r'\b(\d{6})\b', s).group(1)`, or None when there is no match. */
  function FirstSixDigitCode(s: string): (r: Option<string>)
    ensures r.Some? ==> |r.value| == 6 && AllDigits(r.value)
    ensures r.None? <==> forall j | 0 <= j <= |s| :: !SixDigitAt(s, j)
    ensures r.Some? ==> exists i | 0 <= i <= |s| :: SixDigitAt(s, i) && r.value == s[i..i + 6]
                                              && forall j | 0 <= j < i :: !SixDigitAt(s, j)
  {
    match SearchSixDigitFrom(s, 0)
    case Some(i) => Some(s[i..i + 6])
    case None => None
  }

  /** No match of `\b\d{6}\b` starts inside another one: the character before it is a digit. */
  lemma NoMatchInsideMatch(s: string, i: int, j: int)
    requires SixDigitAt(s, i) && i < j < i + 6
    ensures !SixDigitAt(s, j)
  {
    assert s[j - 1] == s[i..i + 6][j - 1 - i];
  }

  /** `re.findall(r'\b(\d{6})\b', s[i..])` on the text from i: a match is recorded and the scan
      resumes at its end; otherwise it moves on by one character. */
  function FindAllSixDigitFrom(s: string, i: nat): (r: seq<string>)
    requires i <= |s|
    ensures forall k | 0 <= k < |r| :: |r[k]| == 6 && AllDigits(r[k])
    decreases |s| - i
  {
    if i + 6 > |s| then []
    else if SixDigitAt(s, i) then [s[i..i + 6]] + FindAllSixDigitFrom(s, i + 6)
    else FindAllSixDigitFrom(s, i + 1)
  }

  /** Reference definition: every position at or after i where a match of `\b\d{6}\b` starts,
      tried one position at a time. */
  function MatchesFrom(s: string, i: nat): (r: seq<nat>)
    requires i <= |s|
    ensures forall k | 0 <= k < |r| :: i <= r[k] && r[k] + 6 <= |s|
    decreases |s| - i
  {
    if i + 6 > |s| then []
    else (if SixDigitAt(s, i) then [i] else []) + MatchesFrom(s, i + 1)
  }

  /** Every position the reference lists holds a match. */
  lemma {:induction false} MatchesAreMatches(s: string, i: nat)
    requires i <= |s|
    ensures forall k | 0 <= k < |MatchesFrom(s, i)| :: SixDigitAt(s, MatchesFrom(s, i)[k])
    decreases |s| - i
  {
    if i + 6 <= |s| {
      MatchesAreMatches(s, i + 1);
      var r, tail := MatchesFrom(s, i), MatchesFrom(s, i + 1);
      if SixDigitAt(s, i) {
        assert r == [i] + tail;
        forall k | 0 <= k < |r| ensures SixDigitAt(s, r[k]) {
          if k > 0 { assert r[k] == tail[k - 1]; }
        }
      } else {
        assert r == tail;
      }
    }
  }

  /** The reference lists positions in increasing order. */
  lemma {:induction false} MatchesIncrease(s: string, i: nat)
    requires i <= |s|
    ensures forall k, l | 0 <= k < l < |MatchesFrom(s, i)| :: MatchesFrom(s, i)[k] < MatchesFrom(s, i)[l]
    decreases |s| - i
  {
    if i + 6 <= |s| {
      MatchesIncrease(s, i + 1);
      var r, tail := MatchesFrom(s, i), MatchesFrom(s, i + 1);
      if SixDigitAt(s, i) {
        assert r == [i] + tail;
        forall k, l | 0 <= k < l < |r| ensures r[k] < r[l] {
          assert r[l] == tail[l - 1] && i + 1 <= tail[l - 1];
          if k > 0 { assert r[k] == tail[k - 1]; }
        }
      } else {
        assert r == tail;
      }
    }
  }

  /** Every match at or after i is listed by the reference. */
  lemma {:induction false} MatchesComplete(s: string, i: nat)
    requires i <= |s|
    ensures forall j | i <= j <= |s| && SixDigitAt(s, j) :: j in MatchesFrom(s, i)
    decreases |s| - i
  {
    if i + 6 <= |s| {
      MatchesComplete(s, i + 1);
      var r, tail := MatchesFrom(s, i), MatchesFrom(s, i + 1);
      if SixDigitAt(s, i) {
        assert r == [i] + tail;
      } else {
        assert r == tail;
        forall j | i <= j <= |s| && SixDigitAt(s, j) ensures j in r {
          assert j != i;
        }
      }
    }
  }

  /** Positions without a match do not change the matches that follow. */
  lemma {:induction false} MatchesSkip(s: string, i: nat, j: nat)
    requires i <= j <= |s|
    requires forall m | i <= m < j :: !SixDigitAt(s, m)
    ensures MatchesFrom(s, i) == MatchesFrom(s, j)
    decreases j - i
  {
    if i < j {
      MatchesSkip(s, i + 1, j);
    }
  }

  /** After a match at i the next match is at i + 6 or later. */
  lemma MatchesAfterMatch(s: string, i: nat)
    requires SixDigitAt(s, i)
    ensures MatchesFrom(s, i) == [i] + MatchesFrom(s, i + 6)
  {
    forall m | i + 1 <= m < i + 6
      ensures !SixDigitAt(s, m)
    {
      NoMatchInsideMatch(s, i, m);
    }
    MatchesSkip(s, i + 1, i + 6);
  }

  /** The six-character texts at the given positions, in the same order. */
  function TextsAt(s: string, ps: seq<nat>): (r: seq<string>)
    requires forall k | 0 <= k < |ps| :: ps[k] + 6 <= |s|
    ensures |r| == |ps| && forall k | 0 <= k < |r| :: r[k] == s[ps[k]..ps[k] + 6]
  {
    if ps == [] then [] else [s[ps[0]..ps[0] + 6]] + TextsAt(s, ps[1..])
  }

  /** findall, resuming after each match, collects the text of every match from i, in order of
      position: it misses none, because no match starts inside another. */
  lemma {:induction false} FindAllIsEveryMatch(s: string, i: nat)
    requires i <= |s|
    ensures FindAllSixDigitFrom(s, i) == TextsAt(s, MatchesFrom(s, i))
    decreases |s| - i
  {
    if i + 6 <= |s| {
      if SixDigitAt(s, i) {
        FindAllIsEveryMatch(s, i + 6);
        FindAllMatchStep(s, i);
      } else {
        FindAllIsEveryMatch(s, i + 1);
        FindAllSkipStep(s, i);
      }
    }
  }

  lemma FindAllMatchStep(s: string, i: nat)
    requires SixDigitAt(s, i)
    requires FindAllSixDigitFrom(s, i + 6) == TextsAt(s, MatchesFrom(s, i + 6))
    ensures FindAllSixDigitFrom(s, i) == TextsAt(s, MatchesFrom(s, i))
  {
    MatchesAfterMatch(s, i);
    var ps := MatchesFrom(s, i);
    assert ps[0] == i && ps[1..] == MatchesFrom(s, i + 6);
    assert TextsAt(s, ps) == [s[i..i + 6]] + TextsAt(s, MatchesFrom(s, i + 6));
  }

  lemma FindAllSkipStep(s: string, i: nat)
    requires i + 6 <= |s| && !SixDigitAt(s, i)
    requires FindAllSixDigitFrom(s, i + 1) == TextsAt(s, MatchesFrom(s, i + 1))
    ensures FindAllSixDigitFrom(s, i) == TextsAt(s, MatchesFrom(s, i))
  {
    assert MatchesFrom(s, i) == MatchesFrom(s, i + 1);
  }

  /** `[code for code in codes if code != '000000']`. */
  function DropZeroCodes(codes: seq<string>): (r: seq<string>)
    ensures |r| <= |codes|
    ensures forall k | 0 <= k < |r| :: r[k] in codes
    ensures forall c :: c in r <==> c in codes && c != ZeroCode
  {
    if codes == [] then []
    else if codes[0] == ZeroCode then DropZeroCodes(codes[1..])
    else [codes[0]] + DropZeroCodes(codes[1..])
  }

  /** The filter keeps the order and every occurrence of the codes it keeps: filtering a
      concatenation concatenates the filtered parts, and one code is kept exactly when it is
      not 000000. */
  lemma {:induction false} DropZeroCodesAppend(a: seq<string>, b: seq<string>)
    ensures DropZeroCodes(a + b) == DropZeroCodes(a) + DropZeroCodes(b)
    ensures DropZeroCodes([ZeroCode]) == []
    ensures forall c | c != ZeroCode :: DropZeroCodes([c]) == [c]
    decreases |a|
  {
    if a == [] {
      assert a + b == b;
    } else {
      assert (a + b)[0] == a[0];
      assert (a + b)[1..] == a[1..] + b;
      DropZeroCodesAppend(a[1..], b);
    }
    forall c | c != ZeroCode
      ensures DropZeroCodes([c]) == [c]
    {
      assert [c][1..] == [];
    }
    assert [ZeroCode][1..] == [];
  }

  /** The fallback of the code display: every six-digit run, zeros dropped, first one kept. */
  function FallbackCode(s: string): Option<string>
  {
    var nonZero := DropZeroCodes(FindAllSixDigitFrom(s, 0));
    if nonZero != [] then Some(nonZero[0]) else None
  }

  /** A match of `\b\d{6}\b` at i that is not the placeholder 000000. */
  predicate RealCodeAt(s: string, i: int) {
    SixDigitAt(s, i) && s[i..i + 6] != ZeroCode
  }

  /** Reference definition: the leftmost real code at or after i, found position by position. */
  function SearchRealCodeFrom(s: string, i: nat): (r: Option<nat>)
    requires i <= |s|
    ensures r.Some? ==> i <= r.value && RealCodeAt(s, r.value)
    ensures r.Some? ==> forall j | i <= j < r.value :: !RealCodeAt(s, j)
    ensures r.None? ==> forall j | i <= j <= |s| :: !RealCodeAt(s, j)
    decreases |s| - i
  {
    if i + 6 > |s| then None
    else if RealCodeAt(s, i) then Some(i)
    else SearchRealCodeFrom(s, i + 1)
  }

  /** From a match at i, the reference search skips the five positions inside it. */
  lemma SearchRealSkipsInside(s: string, i: nat, j: nat)
    requires SixDigitAt(s, i) && i < j <= i + 6 && j <= |s|
    ensures SearchRealCodeFrom(s, i + 1) == SearchRealCodeFrom(s, j)
    decreases j - i
  {
    if j > i + 1 {
      SearchRealSkipsInside(s, i, j - 1);
      NoMatchInsideMatch(s, i, j - 1);
    }
  }

  function CodeAt(s: string, r: Option<nat>): Option<string>
  {
    match r
    case Some(i) => if i + 6 <= |s| then Some(s[i..i + 6]) else None
    case None => None
  }

  function FirstOf(codes: seq<string>): Option<string>
  {
    if codes != [] then Some(codes[0]) else None
  }

  lemma {:induction false} FallbackFromIsReference(s: string, i: nat)
    requires i <= |s|
    ensures FirstOf(DropZeroCodes(FindAllSixDigitFrom(s, i))) == CodeAt(s, SearchRealCodeFrom(s, i))
    decreases |s| - i
  {
    if i + 6 > |s| {
    } else if SixDigitAt(s, i) {
      if s[i..i + 6] == ZeroCode {
        FallbackFromIsReference(s, i + 6);
        SearchRealSkipsInside(s, i, i + 6);
      }
    } else {
      FallbackFromIsReference(s, i + 1);
    }
  }

  /** The fallback picks exactly the leftmost six-digit run that is not 000000: collecting the runs
      in order of appearance and dropping the zeros loses none and reorders none. */
  lemma FallbackCodeIsLeftmostReal(s: string)
    ensures FallbackCode(s).Some? <==> exists i | 0 <= i <= |s| :: RealCodeAt(s, i)
    ensures FallbackCode(s).Some? ==>
      exists i | 0 <= i <= |s| :: RealCodeAt(s, i) && FallbackCode(s).value == s[i..i + 6]
                                && forall j | 0 <= j < i :: !RealCodeAt(s, j)
  {
    FallbackFromIsReference(s, 0);
    match SearchRealCodeFrom(s, 0)
    case Some(i) =>
    case None =>
  }

  // ---------------------------------------------------------------------------
  // account\s+(\d{6})  with re.IGNORECASE

  /** The pattern tried at position i. `\s+` is greedy, and giving whitespace back cannot let
      `\d` match a whitespace character, so only the whole whitespace run needs trying. */
  function AccountCodeAt(s: string, i: nat): (r: Option<string>)
    requires i <= |s|
    ensures r.Some? ==> |r.value| == 6 && AllDigits(r.value)
  {
    if i + 7 <= |s| && Lower(s[i..i + 7]) == "account" then
      var k := SpaceRunEnd(s, i + 7);
      if k > i + 7 && k + 6 <= |s| && AllDigits(s[k..k + 6]) then Some(s[k..k + 6]) else None
    else None
  }

  /** `re.search(r'account\s+(\d{6})', s[i..], re.IGNORECASE).group(1)`: the leftmost match. */
  function SearchAccountFrom(s: string, i: nat): (r: Option<string>)
    requires i <= |s|
    ensures r.Some? ==> |r.value| == 6 && AllDigits(r.value)
    ensures r.Some? ==> exists j | i <= j <= |s| :: AccountCodeAt(s, j) == r
                                              && forall m | i <= m < j :: AccountCodeAt(s, m).None?
    ensures r.None? ==> forall j | i <= j <= |s| :: AccountCodeAt(s, j).None?
    decreases |s| - i
  {
    if i == |s| then AccountCodeAt(s, i)
    else if AccountCodeAt(s, i).Some? then AccountCodeAt(s, i)
    else SearchAccountFrom(s, i + 1)
  }

  // ---------------------------------------------------------------------------
  // re.sub('<[^<]+?>', '', s)

  /** From p on, a '<' or the end of the text at q comes before any '>'. */
  predicate Unclosed(s: string, p: nat, q: nat) {
    p <= q <= |s| && (q == |s| || s[q] == '<') && forall m | p <= m < q :: s[m] != '>'
  }

  /** From p on, the position of the first '>' reached before any '<'. */
  function CloseFrom(s: string, p: nat): (r: Option<nat>)
    requires p <= |s|
    ensures r.Some? ==> p <= r.value < |s| && s[r.value] == '>'
    ensures r.Some? ==> forall m | p <= m < r.value :: s[m] != '<' && s[m] != '>'
    decreases |s| - p
  {
    if p == |s| || s[p] == '<' then None
    else if s[p] == '>' then Some(p)
    else CloseFrom(s, p + 1)
  }

  /** CloseFrom finds nothing exactly when a '<' or the end of the text comes before any '>'. */
  lemma {:induction false} CloseFromNone(s: string, p: nat)
    requires p <= |s|
    ensures CloseFrom(s, p).None? <==> exists q :: Unclosed(s, p, q)
    decreases |s| - p
  {
    if p == |s| || s[p] == '<' {
      assert Unclosed(s, p, p);
    } else if s[p] == '>' {
      assert forall q | p <= q :: !Unclosed(s, p, q);
    } else {
      CloseFromNone(s, p + 1);
      if CloseFrom(s, p).None? {
        var q :| Unclosed(s, p + 1, q);
        assert Unclosed(s, p, q);
      } else {
        forall q | Unclosed(s, p, q)
          ensures Unclosed(s, p + 1, q)
        {
        }
      }
    }
  }

  /** `<[^<]+>` spans s[i..q + 1]: a '<', at least one character other than '<', and a '>' at q. */
  predicate TagSpan(s: string, i: nat, q: nat) {
    i + 2 <= q < |s| && s[i] == '<' && s[q] == '>' && forall m | i < m < q :: s[m] != '<'
  }

  /** The end (the index of '>') of a match of `<[^<]+?>` starting at i: the quantifier is lazy,
      so the match ends at the nearest '>' that can close it; None when no '>' can. */
  function TagAt(s: string, i: nat): (r: Option<nat>)
    requires i <= |s|
    ensures r.Some? ==> TagSpan(s, i, r.value)
    ensures r.Some? ==> forall q | i <= q < r.value :: !TagSpan(s, i, q)
    ensures r.None? ==> forall q | i <= q < |s| :: !TagSpan(s, i, q)
  {
    if i + 1 < |s| && s[i] == '<' && s[i + 1] != '<' then
      CloseFromNone(s, i + 2);
      CloseFrom(s, i + 2)
    else None
  }

  /** `re.sub('<[^<]+?>', '', s[i..])`: matches are removed left to right, without overlap. */
  function StripTagsFrom(s: string, i: nat): (r: string)
    requires i <= |s|
    decreases |s| - i
  {
    if i == |s| then ""
    else match TagAt(s, i)
      case Some(j) => StripTagsFrom(s, j + 1)
      case None => [s[i]] + StripTagsFrom(s, i + 1)
  }

  function StripTags(s: string): string
  {
    StripTagsFrom(s, 0)
  }

  /** a can be obtained from b by deleting characters. */
  predicate IsSubsequence(a: string, b: string)
    decreases |b|
  {
    a == [] || (b != [] && ((a[0] == b[0] && IsSubsequence(a[1..], b[1..])) || IsSubsequence(a, b[1..])))
  }

  lemma {:induction false} SubsequenceOfLonger(a: string, b: string, k: nat)
    requires k <= |b| && IsSubsequence(a, b[k..])
    ensures IsSubsequence(a, b)
    decreases k
  {
    if k > 0 {
      assert b[k - 1..][1..] == b[k..];
      SubsequenceOfLonger(a, b, k - 1);
    }
  }

  lemma {:induction false} StripTagsFromDeletesOnly(s: string, i: nat)
    requires i <= |s|
    ensures IsSubsequence(StripTagsFrom(s, i), s[i..])
    decreases |s| - i
  {
    if i < |s| {
      match TagAt(s, i)
      case Some(j) =>
        StripTagsFromDeletesOnly(s, j + 1);
        assert s[i..][j + 1 - i..] == s[j + 1..];
        SubsequenceOfLonger(StripTagsFrom(s, j + 1), s[i..], j + 1 - i);
      case None =>
        StripTagsFromDeletesOnly(s, i + 1);
        assert s[i..][1..] == s[i + 1..];
    }
  }

  /** Tag stripping only deletes characters: its output is a subsequence of its input. */
  lemma StripTagsDeletesOnly(s: string)
    ensures IsSubsequence(StripTags(s), s)
  {
    StripTagsFromDeletesOnly(s, 0);
    assert s[0..] == s;
  }

  lemma {:induction false} StripTagsFromWithoutOpen(s: string, i: nat)
    requires i <= |s|
    requires forall m | i <= m < |s| :: s[m] != '<'
    ensures StripTagsFrom(s, i) == s[i..]
    decreases |s| - i
  {
    if i < |s| {
      StripTagsFromWithoutOpen(s, i + 1);
      assert s[i..] == [s[i]] + s[i + 1..];
    }
  }

  /** Text without '<' has no tag to strip and comes back unchanged. */
  lemma StripTagsWithoutOpen(s: string)
    requires forall m | 0 <= m < |s| :: s[m] != '<'
    ensures StripTags(s) == s
  {
    StripTagsFromWithoutOpen(s, 0);
  }

  // ---------------------------------------------------------------------------
  // The code shown for one message by the code display

  /** The account pattern wins; otherwise the first six-digit run that is not 000000. */
  function DisplayedCode(body: string): (r: Option<string>)
    ensures r.Some? ==> |r.value| == 6 && AllDigits(r.value)
  {
    match SearchAccountFrom(body, 0)
    case Some(c) => Some(c)
    case None => FallbackCode(body)
  }
}
