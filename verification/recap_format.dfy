/**
 * The string side of the recap: the first-sentence summary of an assistant
 * turn (`_first_sentence`, `_clean_assistant_text`) and the formatting of one
 * numbered exchange (`_fmt_pair`).
 */
module RecapFormat {
  import opened Text

  // ---------------------------------------------------------------------------
  // Whitespace (`re.sub(r"\s+", " ", text).strip()`)

  /** The first position at or after `from` that does not hold whitespace, or `|s|`. */
  function SkipSpaces(s: string, from: nat): (k: nat)
    requires from <= |s|
    ensures from <= k <= |s|
    ensures forall i :: from <= i < k ==> IsSpace(s[i])
    ensures k < |s| ==> !IsSpace(s[k])
    decreases |s| - from
  {
    if from == |s| || !IsSpace(s[from]) then from else SkipSpaces(s, from + 1)
  }

  /** The end of `s[..to]` once trailing whitespace is cut off. */
  function TrimEnd(s: string, to: nat): (k: nat)
    requires to <= |s|
    ensures k <= to
    ensures forall i :: k <= i < to ==> IsSpace(s[i])
    ensures k > 0 ==> !IsSpace(s[k - 1])
  {
    if to == 0 || !IsSpace(s[to - 1]) then to else TrimEnd(s, to - 1)
  }

  /** Whitespace only as single spaces. */
  predicate Normalised(s: string) {
    && (forall i :: 0 <= i < |s| && IsSpace(s[i]) ==> s[i] == ' ')
    && (forall i :: 0 <= i < |s| - 1 && s[i] == ' ' ==> s[i + 1] != ' ')
  }

  /** Putting a character in front keeps a string normalised when it is not
      other whitespace and does not make a double space. */
  lemma ConsNormalised(c: char, t: string)
    requires Normalised(t)
    requires IsSpace(c) ==> c == ' '
    requires c == ' ' && |t| > 0 ==> t[0] != ' '
    ensures Normalised([c] + t)
  {
    var r := [c] + t;
    assert forall i :: 1 <= i < |r| ==> r[i] == t[i - 1];
  }

  /** `re.sub(r"\s+", " ", s)`: every run of whitespace replaced by one space. */
  function Collapse(s: string): (r: string)
    ensures |r| <= |s|
    ensures |s| > 0 ==> |r| > 0
    ensures |s| > 0 && !IsSpace(s[0]) ==> r[0] == s[0]
    ensures Normalised(r)
    decreases |s|
  {
    if |s| == 0 then ""
    else if IsSpace(s[0]) then
      var rest := Collapse(s[SkipSpaces(s, 1)..]);
      ConsNormalised(' ', rest);
      " " + rest
    else
      var rest := Collapse(s[1..]);
      ConsNormalised(s[0], rest);
      [s[0]] + rest
  }

  /** Skipping whitespace in `a + b` stops where it stops in `a`, or at the
      end of `a` when `b` starts with a character that is not whitespace. */
  lemma {:induction false} SkipSpacesAppend(a: string, b: string, from: nat)
    requires from <= |a|
    ensures SkipSpaces(a, from) < |a| ==> SkipSpaces(a + b, from) == SkipSpaces(a, from)
    ensures SkipSpaces(a, from) == |a| && (|b| == 0 || !IsSpace(b[0])) ==> SkipSpaces(a + b, from) == |a|
    decreases |a| - from
  {
    if from < |a| {
      assert (a + b)[from] == a[from];
      if IsSpace(a[from]) {
        SkipSpacesAppend(a, b, from + 1);
      }
    } else if |b| > 0 {
      assert (a + b)[from] == b[0];
    }
  }

  /** Collapsing is done run by run: it distributes over a concatenation that
      does not split a run of whitespace. */
  lemma {:induction false} CollapseAppend(a: string, b: string)
    requires |a| == 0 || |b| == 0 || !IsSpace(a[|a| - 1]) || !IsSpace(b[0])
    ensures Collapse(a + b) == Collapse(a) + Collapse(b)
    decreases |a|
  {
    if |a| == 0 {
      assert a + b == b;
    } else if |b| == 0 {
      assert a + b == a;
    } else if !IsSpace(a[0]) {
      CollapseAppend(a[1..], b);
      CollapseFrontChar(a, b);
    } else if SkipSpaces(a, 1) < |a| {
      CollapseAppend(a[SkipSpaces(a, 1)..], b);
      CollapseFrontRun(a, b);
    } else {
      CollapseWholeRun(a, b);
    }
  }

  /** The step of `CollapseAppend` for `a` opening on a character that is not
      whitespace, given the step for the rest of `a`. */
  lemma CollapseFrontChar(a: string, b: string)
    requires |a| > 0 && !IsSpace(a[0])
    requires Collapse(a[1..] + b) == Collapse(a[1..]) + Collapse(b)
    ensures Collapse(a + b) == Collapse(a) + Collapse(b)
  {
    DropAppend(a, b, 1);
    CollapseChar(a + b);
    CollapseChar(a);
    Assoc([a[0]], Collapse(a[1..]), Collapse(b));
  }

  /** The step of `CollapseAppend` for `a` opening on a run of whitespace that
      ends inside `a`, given the step for the part of `a` after the run. */
  lemma CollapseFrontRun(a: string, b: string)
    requires |a| > 0 && IsSpace(a[0]) && SkipSpaces(a, 1) < |a|
    requires Collapse(a[SkipSpaces(a, 1)..] + b) == Collapse(a[SkipSpaces(a, 1)..]) + Collapse(b)
    ensures Collapse(a + b) == Collapse(a) + Collapse(b)
  {
    var j := SkipSpaces(a, 1);
    SkipSpacesAppend(a, b, 1);
    DropAppend(a, b, j);
    CollapseSpace(a + b);
    CollapseSpace(a);
    Assoc(" ", Collapse(a[j..]), Collapse(b));
  }

  /** `a + b` with `a` all whitespace and `b` opening on something else. */
  lemma CollapseWholeRun(a: string, b: string)
    requires |a| > 0 && IsSpace(a[0]) && SkipSpaces(a, 1) == |a|
    requires |b| > 0 && !IsSpace(b[0])
    ensures Collapse(a + b) == Collapse(a) + Collapse(b)
  {
    SkipSpacesAppend(a, b, 1);
    CollapseSpace(a + b);
    assert (a + b)[SkipSpaces(a + b, 1)..] == b;
    CollapseSpace(a);
    assert a[SkipSpaces(a, 1)..] == "";
  }

  /** One step of `Collapse` on a string that opens with a character that is
      not whitespace. */
  lemma CollapseChar(s: string)
    requires |s| > 0 && !IsSpace(s[0])
    ensures Collapse(s) == [s[0]] + Collapse(s[1..])
  {
  }

  /** One step of `Collapse` on a string that opens with whitespace. */
  lemma CollapseSpace(s: string)
    requires |s| > 0 && IsSpace(s[0])
    ensures Collapse(s) == " " + Collapse(s[SkipSpaces(s, 1)..])
  {
  }

  /** Dropping a prefix of `a` from `a + b`. */
  lemma DropAppend<T>(a: seq<T>, b: seq<T>, k: nat)
    requires k <= |a|
    ensures (a + b)[k..] == a[k..] + b
  {
  }

  /** Concatenation is associative. */
  lemma Assoc<T>(x: seq<T>, y: seq<T>, z: seq<T>)
    ensures x + (y + z) == (x + y) + z
  {
  }

  /** A non-empty run of whitespace becomes one space. */
  lemma CollapseRun(w: string)
    requires |w| > 0 && forall i :: 0 <= i < |w| ==> IsSpace(w[i])
    ensures Collapse(w) == " "
  {
    assert SkipSpaces(w, 1) == |w|;
    assert w[|w|..] == "";
  }

  /** A character that is not whitespace is kept as it is. */
  lemma CollapseKeeps(c: char)
    requires !IsSpace(c)
    ensures Collapse([c]) == [c]
  {
    assert [c][1..] == "";
  }

  /** `str.strip()`: the slice between the leading and the trailing whitespace,
      which is empty when `s` is all whitespace; what remains neither starts nor
      ends with whitespace. */
  function Strip(s: string): (r: string)
    ensures var a, b := SkipSpaces(s, 0), TrimEnd(s, |s|);
      && (a < b ==> r == s[a..b])
      && (b <= a ==> r == "" && forall i :: 0 <= i < |s| ==> IsSpace(s[i]))
    ensures |r| > 0 ==> !IsSpace(r[0]) && !IsSpace(r[|r| - 1])
  {
    var a, b := SkipSpaces(s, 0), TrimEnd(s, |s|);
    if b <= a then ""
    else s[a..b]
  }

  // ---------------------------------------------------------------------------
  // The first sentence

  /** A `.`, `!` or `?` at `p` followed by whitespace: a match of `[.!?]\s` at `p`. */
  predicate IsBoundary(w: string, p: int) {
    0 <= p && p + 1 < |w| && (w[p] == '.' || w[p] == '!' || w[p] == '?') && IsSpace(w[p + 1])
  }

  /** `re.search`: the leftmost boundary at or after `from`, or -1. */
  function FirstBoundaryFrom(w: string, from: nat): (p: int)
    requires from <= |w|
    ensures p == -1 || (from <= p && IsBoundary(w, p))
    ensures forall q :: from <= q && (p == -1 || q < p) ==> !IsBoundary(w, q)
    decreases |w| - from
  {
    if from + 1 >= |w| then -1
    else if IsBoundary(w, from) then from
    else FirstBoundaryFrom(w, from + 1)
  }

  /** `_first_sentence`: cut at the first sentence boundary when it ends within
      `maxLen + 10` characters, else cut to `maxLen` characters with an ellipsis,
      else leave the text alone.  The search only looks at the first
      `maxLen + 50` characters. */
  function FirstSentence(text: string, maxLen: int): (r: string)
    requires maxLen >= 3
    ensures |r| <= maxLen + 9
    ensures || (|r| <= |text| && r == text[..|r|])
            || (|r| == maxLen < |text| && r == text[..maxLen - 3] + "...")
  {
    var window := Take(text, maxLen + 50);
    var p := FirstBoundaryFrom(window, 0);
    if p >= 0 && p + 2 <= maxLen + 10 then text[..p + 1]
    else if |text| > maxLen then text[..maxLen - 3] + "..."
    else text
  }

  /** The three outcomes of `_first_sentence`, stated on the whole text: looking
      only at a window of `maxLen + 50` characters changes nothing. */
  lemma FirstSentenceCases(text: string, maxLen: int)
    requires maxLen >= 3
    ensures var r := FirstSentence(text, maxLen);
      && ((exists p :: IsBoundary(text, p) && p + 2 <= maxLen + 10) ==>
            && |r| >= 1 && r == text[..|r|] && IsBoundary(text, |r| - 1)
            && forall q :: 0 <= q < |r| - 1 ==> !IsBoundary(text, q))
      && (!(exists p :: IsBoundary(text, p) && p + 2 <= maxLen + 10) ==>
            if |text| > maxLen then |r| == maxLen && r == text[..maxLen - 3] + "..." else r == text)
  {
    var window := Take(text, maxLen + 50);
    var p := FirstBoundaryFrom(window, 0);
    forall q | q + 2 <= maxLen + 50 ensures IsBoundary(window, q) == IsBoundary(text, q) {
    }
    if exists p' :: IsBoundary(text, p') && p' + 2 <= maxLen + 10 {
      var p' :| IsBoundary(text, p') && p' + 2 <= maxLen + 10;
      assert IsBoundary(window, p');
      assert p != -1 && p <= p';
    }
  }

  /** `_clean_assistant_text`: whitespace collapsed and stripped, then the first
      sentence with `max_len=100`. */
  function CleanAssistantText(text: string): (r: string)
    ensures |r| <= 109
  {
    FirstSentence(Strip(Collapse(text)), 100)
  }

  lemma NormalisedSlice(s: string, a: int, b: int)
    requires Normalised(s) && 0 <= a <= b <= |s|
    ensures Normalised(s[a..b])
  {
    assert forall i :: 0 <= i < b - a ==> s[a..b][i] == s[a + i];
  }

  lemma NormalisedEllipsis(s: string)
    requires Normalised(s)
    ensures Normalised(s + "...")
  {
    var r := s + "...";
    assert forall i :: 0 <= i < |s| ==> r[i] == s[i];
    assert forall i :: |s| <= i < |r| ==> r[i] == '.';
  }

  /** The summary of an assistant turn has no whitespace but single inner spaces,
      and none at its start. */
  lemma CleanAssistantTextNormalised(text: string)
    ensures Normalised(CleanAssistantText(text))
    ensures |CleanAssistantText(text)| > 0 ==> !IsSpace(CleanAssistantText(text)[0])
  {
    var c := Collapse(text);
    var s := Strip(c);
    var a, b := SkipSpaces(c, 0), TrimEnd(c, |c|);
    if a < b {
      NormalisedSlice(c, a, b);
    }
    var r := FirstSentence(s, 100);
    if |r| <= |s| && r == s[..|r|] {
      NormalisedSlice(s, 0, |r|);
    } else {
      NormalisedSlice(s, 0, 97);
      NormalisedEllipsis(s[..97]);
    }
  }

  // ---------------------------------------------------------------------------
  // One exchange

  /** `text[:limit - 3] + "..."` when the text is longer than `limit`. */
  function Clip(s: string, limit: nat): (r: string)
    requires limit >= 3
    ensures |s| <= limit ==> r == s
    ensures |s| > limit ==> |r| == limit && r[..limit - 3] == s[..limit - 3] && r[limit - 3..] == "..."
  {
    if |s| > limit then s[..limit - 3] + "..." else s
  }

  /** One exchange as the recap prints it. */
  datatype Pair = Pair(user: string, assistant: string)

  /** `f"  {num:>3}.  "`. */
  function NumberPrefix(num: int): string {
    "  " + PadLeft(IntToString(num), 3) + ".  "
  }

  /** The body of `_fmt_pair` after the number: a user text is clipped to 70
      characters and its reply, on a second line, to 50; a reply without a user
      text is clipped to 70. */
  function PairText(p: Pair): (t: string)
    ensures p.user != "" && p.assistant != "" ==> |t| <= 70 + 9 + 50
    ensures !(p.user != "" && p.assistant != "") ==> |t| <= 70
  {
    if p.user != "" then
      if p.assistant != "" then Clip(p.user, 70) + "\n        " + Clip(p.assistant, 50)
      else Clip(p.user, 70)
    else Clip(p.assistant, 70)
  }

  /** `_fmt_pair`. */
  function FmtPair(num: int, p: Pair): (r: string)
    ensures |r| >= |NumberPrefix(num)| && r[..|NumberPrefix(num)|] == NumberPrefix(num)
  {
    NumberPrefix(num) + PairText(p)
  }
}
