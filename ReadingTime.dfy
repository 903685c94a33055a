/**
 * `calculateReadingTime`: the content is trimmed, split on runs of white
 * space, and the number of pieces is divided by 200 words per minute,
 * rounding up.
 */
module ReadingTime {
  import opened JsStrings

  const WordsPerMinute: nat := 200

  /** End of the run of non-white-space characters starting at `i`. */
  function WordEnd(s: string, i: nat): (n: nat)
    requires i <= |s|
    ensures i <= n <= |s|
    ensures forall k :: i <= k < n ==> !IsWhitespace(s[k])
    ensures n < |s| ==> IsWhitespace(s[n])
    decreases |s| - i
  {
    if i == |s| || IsWhitespace(s[i]) then i else WordEnd(s, i + 1)
  }

  /** End of the run of white space starting at `i`. */
  function GapEnd(s: string, i: nat): (n: nat)
    requires i <= |s|
    ensures i <= n <= |s|
    ensures forall k :: i <= k < n ==> IsWhitespace(s[k])
    ensures n < |s| ==> !IsWhitespace(s[n])
    decreases |s| - i
  {
    if i == |s| || !IsWhitespace(s[i]) then i else GapEnd(s, i + 1)
  }

  /** The pieces of `s[i..]` between maximal runs of white space. */
  function SplitFrom(s: string, i: nat): (r: seq<string>)
    requires i <= |s|
    ensures |r| >= 1
    decreases |s| - i
  {
    var n := WordEnd(s, i);
    if n == |s| then [s[i..]] else [s[i..n]] + SplitFrom(s, GapEnd(s, n + 1))
  }

  /**
   * `s.split(/\s+/)`: the pieces between maximal runs of white space. A
   * leading or trailing run gives an empty piece, and the empty string
   * splits into one empty piece.
   */
  function SplitWs(s: string): (r: seq<string>)
    ensures |r| >= 1
  {
    SplitFrom(s, 0)
  }

  /**
   * An independent count of words: a left-to-right scan that counts every
   * non-white-space character whose predecessor is white space (or absent).
   */
  function WordStarts(s: string, afterSpace: bool): nat {
    if s == [] then 0
    else (if afterSpace && !IsWhitespace(s[0]) then 1 else 0) + WordStarts(s[1..], IsWhitespace(s[0]))
  }

  function WordCount(s: string): nat {
    WordStarts(s, true)
  }

  /** `Math.ceil(words / 200)`. */
  function Minutes(words: nat): (m: nat)
    ensures m * WordsPerMinute >= words
    ensures m == 0 || (m - 1) * WordsPerMinute < words
  {
    (words + WordsPerMinute - 1) / WordsPerMinute
  }

  /** The reading time of a text, in minutes. */
  function CalculateReadingTime(content: string): (minutes: nat)
    ensures minutes >= 1
  {
    SplitLength(Trim(content));
    Minutes(|SplitWs(Trim(content))|)
  }

  /** The scan splits into two parts at any point, the second starting in the state the first left. */
  lemma {:induction false} WordStartsAppend(a: string, b: string, afterSpace: bool)
    ensures WordStarts(a + b, afterSpace)
            == WordStarts(a, afterSpace) + WordStarts(b, if a == [] then afterSpace else IsWhitespace(a[|a| - 1]))
    decreases |a|
  {
    if a == [] {
      assert a + b == b;
    } else {
      assert (a + b)[1..] == a[1..] + b;
      WordStartsAppend(a[1..], b, IsWhitespace(a[0]));
    }
  }

  /** White space starts no word. */
  lemma {:induction false} WordStartsOfSpace(w: string, afterSpace: bool)
    requires AllWhitespace(w)
    ensures WordStarts(w, afterSpace) == 0
    decreases |w|
  {
    if w != [] {
      WordStartsOfSpace(w[1..], true);
    }
  }

  /** One run of non-white-space characters is one word, or part of the word before it. */
  lemma {:induction false} WordStartsOfWord(w: string, afterSpace: bool)
    requires w != [] && forall i :: 0 <= i < |w| ==> !IsWhitespace(w[i])
    ensures WordStarts(w, afterSpace) == if afterSpace then 1 else 0
    decreases |w|
  {
    if |w| > 1 {
      WordStartsOfWord(w[1..], false);
    }
  }

  /** A word followed by white space counts once, and the scan resumes as at the start. */
  lemma WordThenGap(word: string, gap: string, rest: string)
    requires word != [] && forall i :: 0 <= i < |word| ==> !IsWhitespace(word[i])
    requires gap != [] && AllWhitespace(gap)
    ensures WordStarts(word + (gap + rest), true) == 1 + WordStarts(rest, true)
  {
    WordStartsAppend(word, gap + rest, true);
    WordStartsOfWord(word, true);
    WordStartsAppend(gap, rest, false);
    WordStartsOfSpace(gap, false);
  }

  /** One step of the split: the piece up to the first gap, then the split after the gap. */
  lemma SplitStep(s: string, i: nat)
    requires i <= |s| && WordEnd(s, i) < |s|
    ensures |SplitFrom(s, i)| == 1 + |SplitFrom(s, GapEnd(s, WordEnd(s, i) + 1))|
  {
  }

  /** The words of `t[i..]` are the word ending at `n`, then those from `j` on, past the gap. */
  lemma WordsAfterFirst(t: string, i: nat, n: nat, j: nat)
    requires i < n < j <= |t|
    requires forall k :: i <= k < n ==> !IsWhitespace(t[k])
    requires forall k :: n <= k < j ==> IsWhitespace(t[k])
    ensures WordCount(t[i..]) == 1 + WordCount(t[j..])
  {
    ThreeParts(t[i..], n - i, j - i);
    assert t[i..][..n - i] == t[i..n] && t[i..][n - i..j - i] == t[n..j] && t[i..][j - i..] == t[j..];
    WordThenGap(t[i..n], t[n..j], t[j..]);
  }

  /** From a word start up to a text's non-white-space end, the split yields one piece per word. */
  lemma {:induction false} SplitCountsWords(t: string, i: nat)
    requires i < |t| && !IsWhitespace(t[i]) && !IsWhitespace(t[|t| - 1])
    ensures |SplitFrom(t, i)| == WordCount(t[i..])
    decreases |t| - i
  {
    var n := WordEnd(t, i);
    if n == |t| {
      WordStartsOfWord(t[i..], true);
      assert SplitFrom(t, i) == [t[i..]];
      assert |SplitFrom(t, i)| == WordCount(t[i..]);
    } else {
      var j := GapEnd(t, n + 1);
      SplitStep(t, i);
      var pieces, piecesAfter := |SplitFrom(t, i)|, |SplitFrom(t, j)|;
      assert pieces == 1 + piecesAfter;
      SplitCountsWords(t, j);
      WordsAfterFirst(t, i, n, j);
    }
  }

  /** The count of pieces after trimming: the word count, but one for a blank text. */
  lemma SplitLength(s: string)
    ensures |SplitWs(s)| >= 1
    ensures s == Trim(s) ==> |SplitWs(s)| == if WordCount(s) == 0 then 1 else WordCount(s)
  {
    if s == Trim(s) {
      SplitLengthOfTrimmed(s);
    }
  }

  /** The same count for a text with no white space at either end. */
  lemma SplitLengthOfTrimmed(s: string)
    requires s == [] || (!IsWhitespace(s[0]) && !IsWhitespace(s[|s| - 1]))
    ensures |SplitWs(s)| == if WordCount(s) == 0 then 1 else WordCount(s)
  {
    if s != [] {
      SplitCountsWords(s, 0);
      assert s[0..] == s;
    }
  }

  lemma ThreeParts(s: string, i: nat, j: nat)
    requires i <= j <= |s|
    ensures s == s[..i] + (s[i..j] + s[j..])
  {
  }

  /** White space around a text adds no word to it. */
  lemma PaddingAddsNoWords(lead: string, t: string, trail: string)
    requires AllWhitespace(lead) && AllWhitespace(trail)
    ensures WordStarts(lead + (t + trail), true) == WordStarts(t, true)
  {
    WordStartsAppend(lead, t + trail, true);
    WordStartsOfSpace(lead, true);
    WordStartsAppend(t, trail, true);
    WordStartsOfSpace(trail, if t == [] then true else IsWhitespace(t[|t| - 1]));
  }

  /** Trimming removes no word. */
  lemma TrimKeepsWords(s: string)
    ensures WordCount(Trim(s)) == WordCount(s)
  {
    TrimIsInfix(s);
    var i, j :| 0 <= i <= j <= |s| && Trim(s) == s[i..j] && AllWhitespace(s[..i]) && AllWhitespace(s[j..]);
    ThreeParts(s, i, j);
    PaddingAddsNoWords(s[..i], s[i..j], s[j..]);
  }

  /** The reading time is the word count over 200, rounded up, and one minute for a blank text. */
  lemma ReadingTimeByWords(content: string)
    ensures var w := WordCount(content);
            CalculateReadingTime(content) == Minutes(if w == 0 then 1 else w)
  {
    var t := Trim(content);
    TrimOfTrimmed(t);
    SplitLength(t);
    TrimKeepsWords(content);
  }

  /** Text made only of white space reads in one minute. */
  lemma BlankReadsInOneMinute(content: string)
    requires AllWhitespace(content)
    ensures CalculateReadingTime(content) == 1
  {
    ReadingTimeByWords(content);
    WordStartsOfSpace(content, true);
  }

  /** More words never read faster. */
  lemma MinutesMonotone(a: nat, b: nat)
    requires a <= b
    ensures Minutes(a) <= Minutes(b)
  {
    if Minutes(a) > 0 {
      assert (Minutes(a) - 1) * WordsPerMinute < Minutes(b) * WordsPerMinute;
    }
  }

  /** One to two hundred words read in one minute, and the two hundred and first word adds a second. */
  lemma OneMinuteBoundary(words: nat)
    requires 1 <= words <= 201
    ensures Minutes(words) == if words <= 200 then 1 else 2
  {
  }
}
