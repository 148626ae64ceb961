/**
 * Why the merge puts the coordination entries back "at their original
 * positions": when line indices are distinct and increasing along the log, as
 * line numbers are, and the reducer only drops entries, sorting the reducer's
 * output together with the coordination entries by line index yields a
 * subsequence of the original log.
 */
module GuardOrder {
  import opened Session
  import opened TeamClassify
  import opened Guard

  /** Line indices strictly increase along the log. */
  ghost predicate StrictlySorted(ms: seq<Message>) {
    forall i, j :: 0 <= i < j < |ms| ==> ms[i].index < ms[j].index
  }

  /** A subsequence of a strictly sorted log is strictly sorted and draws its
      entries from the log. */
  lemma {:induction false} SubsequenceOfStrict(xs: seq<Message>, ys: seq<Message>)
    requires IsSubsequence(xs, ys) && StrictlySorted(ys)
    ensures StrictlySorted(xs)
    ensures forall i :: 0 <= i < |xs| ==> xs[i] in ys
    decreases |ys|
  {
    if |xs| > 0 {
      var yInit := ys[..|ys| - 1];
      assert StrictlySorted(yInit);
      if xs[|xs| - 1] == ys[|ys| - 1] {
        var xInit := xs[..|xs| - 1];
        SubsequenceOfStrict(xInit, yInit);
        forall i | 0 <= i < |xs| ensures xs[i] in ys {
          if i < |xs| - 1 {
            assert xs[i] == xInit[i];
          }
        }
        forall i, j | 0 <= i < j < |xs| ensures xs[i].index < xs[j].index {
          if j < |xs| - 1 {
            assert xs[i] == xInit[i] && xs[j] == xInit[j];
          } else {
            assert xs[i] == xInit[i];
            var p :| 0 <= p < |yInit| && yInit[p] == xs[i];
            assert ys[p] == xs[i];
          }
        }
      } else {
        SubsequenceOfStrict(xs, yInit);
      }
    }
  }

  /** In a strictly sorted log an index names at most one entry. */
  lemma SameIndexSameEntry(ms: seq<Message>, a: Message, b: Message)
    requires StrictlySorted(ms) && a in ms && b in ms && a.index == b.index
    ensures a == b
  {
    var i :| 0 <= i < |ms| && ms[i] == a;
    var j :| 0 <= j < |ms| && ms[j] == b;
    if i < j {
      assert ms[i].index < ms[j].index;
    } else if j < i {
      assert ms[j].index < ms[i].index;
    }
  }

  lemma {:induction false} WithIndexMembers(s: seq<Message>, k: int)
    ensures forall i :: 0 <= i < |WithIndex(s, k)| ==> WithIndex(s, k)[i] in s && WithIndex(s, k)[i].index == k
  {
    if |s| > 0 {
      var init := s[..|s| - 1];
      WithIndexMembers(init, k);
      assert s == init + [s[|s| - 1]];
    }
  }

  lemma {:induction false} WithIndexNone(s: seq<Message>, k: int)
    requires forall i :: 0 <= i < |s| ==> s[i].index != k
    ensures WithIndex(s, k) == []
  {
    if |s| > 0 {
      WithIndexNone(s[..|s| - 1], k);
    }
  }

  lemma {:induction false} StrictWithIndexAtMostOne(s: seq<Message>, k: int)
    requires StrictlySorted(s)
    ensures |WithIndex(s, k)| <= 1
  {
    if |s| > 0 {
      var init := s[..|s| - 1];
      assert StrictlySorted(init);
      StrictWithIndexAtMostOne(init, k);
      if s[|s| - 1].index == k {
        forall i | 0 <= i < |init| ensures init[i].index != k {
          assert s[i].index < s[|s| - 1].index;
        }
        WithIndexNone(init, k);
      }
    }
  }

  /** Two entries of the same index make that index's filter hold two entries. */
  lemma TwoAtIndex(s: seq<Message>, i: int, j: int)
    requires 0 <= i < j < |s| && s[i].index == s[j].index
    ensures |WithIndex(s, s[i].index)| >= 2
  {
    var k := s[i].index;
    assert s == s[..j] + [s[j]] + s[j + 1..];
    WithIndexAppend(s[..j] + [s[j]], s[j + 1..], k);
    WithIndexAppend(s[..j], [s[j]], k);
    var pre := s[..j];
    assert pre == pre[..i] + [pre[i]] + pre[i + 1..];
    WithIndexAppend(pre[..i] + [pre[i]], pre[i + 1..], k);
    WithIndexAppend(pre[..i], [pre[i]], k);
  }

  lemma SortedUniqueIsStrict(s: seq<Message>)
    requires SortedByIndex(s)
    requires forall k :: |WithIndex(s, k)| <= 1
    ensures StrictlySorted(s)
  {
    forall i, j | 0 <= i < j < |s| ensures s[i].index < s[j].index {
      if s[i].index == s[j].index {
        TwoAtIndex(s, i, j);
      }
    }
  }

  /** When the last entries agree, the earlier entries of `xs` come from the
      earlier entries of `ys`. */
  lemma MembersBeforeLast(xs: seq<Message>, ys: seq<Message>)
    requires StrictlySorted(xs) && StrictlySorted(ys) && |xs| > 0 && |ys| > 0
    requires forall i :: 0 <= i < |xs| ==> xs[i] in ys
    requires xs[|xs| - 1] == ys[|ys| - 1]
    ensures forall i :: 0 <= i < |xs| - 1 ==> xs[i] in ys[..|ys| - 1]
  {
    forall i | 0 <= i < |xs| - 1 ensures xs[i] in ys[..|ys| - 1] {
      var p :| 0 <= p < |ys| && ys[p] == xs[i];
      assert xs[i].index < xs[|xs| - 1].index;
      assert p != |ys| - 1;
      assert ys[..|ys| - 1][p] == xs[i];
    }
  }

  /** When the last entry of `ys` is not the last of `xs`, it is none of them. */
  lemma MembersAvoidLast(xs: seq<Message>, ys: seq<Message>)
    requires StrictlySorted(xs) && StrictlySorted(ys) && |xs| > 0 && |ys| > 0
    requires forall i :: 0 <= i < |xs| ==> xs[i] in ys
    requires xs[|xs| - 1] != ys[|ys| - 1]
    ensures forall i :: 0 <= i < |xs| ==> xs[i] in ys[..|ys| - 1]
  {
    var xLast := xs[|xs| - 1];
    var q :| 0 <= q < |ys| && ys[q] == xLast;
    assert q < |ys| - 1;
    forall i | 0 <= i < |xs| ensures xs[i] in ys[..|ys| - 1] {
      var p :| 0 <= p < |ys| && ys[p] == xs[i];
      assert xs[i].index <= xLast.index < ys[|ys| - 1].index;
      assert p != |ys| - 1;
      assert ys[..|ys| - 1][p] == xs[i];
    }
  }

  /** A strictly sorted sequence whose entries all occur in a strictly sorted log
      is a subsequence of that log. */
  lemma {:induction false} StrictMembersAreSubsequence(xs: seq<Message>, ys: seq<Message>)
    requires StrictlySorted(xs) && StrictlySorted(ys)
    requires forall i :: 0 <= i < |xs| ==> xs[i] in ys
    ensures IsSubsequence(xs, ys)
    decreases |ys|
  {
    if |xs| > 0 {
      assert xs[|xs| - 1] in ys;
      var yInit := ys[..|ys| - 1];
      assert StrictlySorted(yInit);
      if xs[|xs| - 1] == ys[|ys| - 1] {
        var xInit := xs[..|xs| - 1];
        MembersBeforeLast(xs, ys);
        assert StrictlySorted(xInit);
        StrictMembersAreSubsequence(xInit, yInit);
      } else {
        MembersAvoidLast(xs, ys);
        StrictMembersAreSubsequence(xs, yInit);
      }
    }
  }

  /** With distinct increasing line indices and a reducer that only drops entries,
      the merged log is a subsequence of the input: every surviving entry, team or
      not, keeps its original place relative to the others. */
  lemma MergedIsSubsequence(reduced: seq<Message>, ms: seq<Message>, kw: string -> bool)
    requires StrictlySorted(ms)
    requires IsSubsequence(reduced, NonTeamPart(ms, kw))
    ensures IsSubsequence(Merged(reduced, ms, kw), ms)
  {
    var team, rest := TeamPart(ms, kw), NonTeamPart(ms, kw);
    PartitionKeepsOrder(ms, kw);
    SubsequenceOfStrict(team, ms);
    SubsequenceOfStrict(rest, ms);
    SubsequenceOfStrict(reduced, rest);
    var merged := Merged(reduced, ms, kw);
    MergedProtects(reduced, ms, kw);
    forall k ensures |WithIndex(merged, k)| <= 1 {
      StrictWithIndexAtMostOne(reduced, k);
      StrictWithIndexAtMostOne(team, k);
      if |WithIndex(reduced, k)| > 0 && |WithIndex(team, k)| > 0 {
        WithIndexMembers(reduced, k);
        WithIndexMembers(team, k);
        var a, b := WithIndex(reduced, k)[0], WithIndex(team, k)[0];
        NonTeamPartMembers(ms, kw, a);
        TeamPartMembers(ms, kw, b);
        SameIndexSameEntry(ms, a, b);
      }
    }
    SortedUniqueIsStrict(merged);
    forall i | 0 <= i < |merged| ensures merged[i] in ms {
      assert merged[i] in multiset(merged);
      if merged[i] in multiset(reduced) {
        NonTeamPartMembers(ms, kw, merged[i]);
      } else {
        TeamPartMembers(ms, kw, merged[i]);
      }
    }
    StrictMembersAreSubsequence(merged, ms);
  }
}
