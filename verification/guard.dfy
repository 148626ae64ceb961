/**
 * `prune_with_team_protect`: extract the team state; without a team, hand the
 * whole log to the reducer; with one, hand it only the entries the classifier
 * rejects, merge its output back with the coordination entries by a stable
 * sort on line index, and append the recovery exchange.
 *
 * The reducer (`run_prescription` with its strategy list and configuration)
 * is a parameter: every result here holds whatever it returns, except the one
 * lemma that assumes it returns a subsequence of its input.
 */
module Guard {
  import opened Session
  import opened TeamModel
  import opened TeamClassify
  import opened TeamExtract
  import opened TeamInject

  // ---------------------------------------------------------------------------
  // The stable sort on line index (`list.sort(key=lambda m: m[0])`)

  /** The entries of `s` at line index `k`, in their order in `s`. */
  function WithIndex(s: seq<Message>, k: int): (r: seq<Message>)
    ensures |r| <= |s|
  {
    if |s| == 0 then []
    else WithIndex(s[..|s| - 1], k) + (if s[|s| - 1].index == k then [s[|s| - 1]] else [])
  }

  lemma {:induction false} WithIndexAppend(a: seq<Message>, b: seq<Message>, k: int)
    ensures WithIndex(a + b, k) == WithIndex(a, k) + WithIndex(b, k)
  {
    if |b| == 0 {
      assert a + b == a;
    } else {
      WithIndexAppend(a, b[..|b| - 1], k);
      assert (a + b)[..|a + b| - 1] == a + b[..|b| - 1];
    }
  }

  /** Places `x` after every entry whose index is not larger than its own,
      scanning from the end. */
  function Insert(s: seq<Message>, x: Message): (r: seq<Message>)
    ensures |r| == |s| + 1
  {
    if |s| == 0 then [x]
    else if s[|s| - 1].index <= x.index then s + [x]
    else Insert(s[..|s| - 1], x) + [s[|s| - 1]]
  }

  /** Inserting adds exactly `x`. */
  lemma {:induction false} InsertAddsOne(s: seq<Message>, x: Message)
    ensures multiset(Insert(s, x)) == multiset(s) + multiset{x}
  {
    if |s| > 0 && s[|s| - 1].index > x.index {
      var init, last := s[..|s| - 1], s[|s| - 1];
      InsertAddsOne(init, x);
      assert s == init + [last];
    }
  }

  /** Inserting into a sorted sequence keeps it sorted. */
  lemma {:induction false} InsertSorted(s: seq<Message>, x: Message)
    requires SortedByIndex(s)
    ensures SortedByIndex(Insert(s, x))
  {
    if |s| > 0 && s[|s| - 1].index > x.index {
      var init, last := s[..|s| - 1], s[|s| - 1];
      assert SortedByIndex(init);
      InsertSorted(init, x);
      InsertAddsOne(init, x);
      var r := Insert(init, x);
      forall i | 0 <= i < |r| ensures r[i].index <= last.index {
        assert r[i] in multiset(r);
        if r[i] != x {
          assert r[i] in multiset(init);
          var j :| 0 <= j < |init| && init[j] == r[i];
          assert s[j] == init[j];
        }
      }
    }
  }

  /** Inserting keeps the entries of every index in their order, `x` last among its equals. */
  lemma {:induction false} InsertStable(s: seq<Message>, x: Message, k: int)
    ensures WithIndex(Insert(s, x), k) == WithIndex(s, k) + (if x.index == k then [x] else [])
  {
    if |s| == 0 {
    } else if s[|s| - 1].index <= x.index {
      WithIndexAppend(s, [x], k);
    } else {
      InsertStable(s[..|s| - 1], x, k);
      InsertBelowLast(s, x, k);
    }
  }

  /** The step of `InsertStable` where `x` goes before the last entry of `s`. */
  lemma InsertBelowLast(s: seq<Message>, x: Message, k: int)
    requires |s| > 0 && s[|s| - 1].index > x.index
    requires var init := s[..|s| - 1];
      WithIndex(Insert(init, x), k) == WithIndex(init, k) + (if x.index == k then [x] else [])
    ensures WithIndex(Insert(s, x), k) == WithIndex(s, k) + (if x.index == k then [x] else [])
  {
    var init, last := s[..|s| - 1], s[|s| - 1];
    var r := Insert(init, x) + [last];
    assert r[..|r| - 1] == Insert(init, x);
    assert Insert(s, x) == r;
    var lastPart := if last.index == k then [last] else [];
    assert WithIndex(r, k) == WithIndex(Insert(init, x), k) + lastPart;
    assert WithIndex(s, k) == WithIndex(init, k) + lastPart;
    // `last` has a larger index than `x`, so at most one of them has index `k`.
    if x.index == k {
      assert WithIndex(r, k) == WithIndex(init, k) + [x] + [];
      assert WithIndex(s, k) == WithIndex(init, k) + [];
    } else {
      assert WithIndex(r, k) == WithIndex(init, k) + [] + lastPart;
    }
  }

  /** `sorted(xs, key=index)`: Python's sort is stable. */
  function SortByIndex(xs: seq<Message>): (r: seq<Message>)
    ensures |r| == |xs|
    ensures SortedByIndex(r)
    ensures multiset(r) == multiset(xs)
  {
    if |xs| == 0 then []
    else
      var init := xs[..|xs| - 1];
      assert xs == init + [xs[|xs| - 1]];
      InsertSorted(SortByIndex(init), xs[|xs| - 1]);
      InsertAddsOne(SortByIndex(init), xs[|xs| - 1]);
      Insert(SortByIndex(init), xs[|xs| - 1])
  }

  /** Stability: the entries of each line index come out in their input order. */
  lemma {:induction false} SortByIndexStable(xs: seq<Message>, k: int)
    ensures WithIndex(SortByIndex(xs), k) == WithIndex(xs, k)
  {
    if |xs| > 0 {
      var init := xs[..|xs| - 1];
      SortByIndexStable(init, k);
      InsertStable(SortByIndex(init), xs[|xs| - 1], k);
    }
  }

  // ---------------------------------------------------------------------------
  // The orchestration

  /** `PRESCRIPTIONS.get(rx_name, PRESCRIPTIONS["standard"])`: an unknown
      prescription falls back to the standard strategy list. */
  function StrategyNames(prescriptions: map<string, seq<string>>, rxName: string): (names: seq<string>)
    requires "standard" in prescriptions
    ensures rxName in prescriptions ==> names == prescriptions[rxName]
    ensures rxName !in prescriptions ==> names == prescriptions["standard"]
  {
    if rxName in prescriptions then prescriptions[rxName] else prescriptions["standard"]
  }

  /** The merge step: the reducer's output and the coordination entries, sorted by line index. */
  function Merged(reduced: seq<Message>, ms: seq<Message>, kw: string -> bool): seq<Message> {
    SortByIndex(reduced + TeamPart(ms, kw))
  }

  /** Whatever the reducer returns, the merged log is sorted by line index, holds
      exactly the reducer's entries and the coordination entries, keeps on each line
      index the reducer's entries before the coordination entries, and contains
      every coordination entry of the input unchanged. */
  lemma MergedProtects(reduced: seq<Message>, ms: seq<Message>, kw: string -> bool)
    ensures var merged := Merged(reduced, ms, kw);
      && SortedByIndex(merged)
      && multiset(merged) == multiset(reduced) + multiset(TeamPart(ms, kw))
      && (forall k :: WithIndex(merged, k) == WithIndex(reduced, k) + WithIndex(TeamPart(ms, kw), k))
      && (forall m :: m in ms && IsCoordination(m.entry, kw) ==> m in merged)
  {
    var merged := Merged(reduced, ms, kw);
    forall k ensures WithIndex(merged, k) == WithIndex(reduced, k) + WithIndex(TeamPart(ms, kw), k) {
      SortByIndexStable(reduced + TeamPart(ms, kw), k);
      WithIndexAppend(reduced, TeamPart(ms, kw), k);
    }
    forall m | m in ms && IsCoordination(m.entry, kw) ensures m in merged {
      TeamPartMembers(ms, kw, m);
      assert m in multiset(reduced + TeamPart(ms, kw));
    }
  }

  /** `prune_with_team_protect`. */
  method PruneWithTeamProtect<R>(
    ms: seq<Message>, rxName: string, prescriptions: map<string, seq<string>>,
    reducer: (seq<Message>, seq<string>) -> (seq<Message>, R), kw: string -> bool,
    userUuid: string, assistantUuid: string, now: string, userSize: nat, assistantSize: nat)
    returns (out: seq<Message>, results: R, st: TeamState)
    requires "standard" in prescriptions
    requires SummaryReadable(ms, kw)
    ensures st == TeamStateOf(ms, kw)
    ensures var names := StrategyNames(prescriptions, rxName);
      && (st.IsEmpty() ==> out == reducer(ms, names).0 && results == reducer(ms, names).1)
      && (!st.IsEmpty() ==>
            && results == reducer(NonTeamPart(ms, kw), names).1
            && out == Recovered(Merged(reducer(NonTeamPart(ms, kw), names).0, ms, kw), SourceWording,
                                ToRecoveryText(st), userUuid, assistantUuid, now, userSize, assistantSize))
    ensures !st.IsEmpty() ==>
      && SortedByIndex(out)
      && (forall m :: m in ms && IsCoordination(m.entry, kw) ==> m in out)
  {
    var names := StrategyNames(prescriptions, rxName);
    st := ExtractTeamState(ms, kw);
    if st.IsEmpty() {
      var pruned := reducer(ms, names);
      out, results := pruned.0, pruned.1;
      return;
    }

    var teamMessages, nonTeamMessages := SplitByTeam(ms, kw);
    var pruned := reducer(nonTeamMessages, names);
    var allMessages := SortByIndex(pruned.0 + teamMessages);
    MergedProtects(pruned.0, ms, kw);
    var recovery := ToRecoveryText(st);
    RecoveredKeepsOrder(allMessages, SourceWording, recovery, userUuid, assistantUuid, now, userSize, assistantSize);
    RecoveredShape(allMessages, SourceWording, recovery, userUuid, assistantUuid, now, userSize, assistantSize);
    out := InjectTeamRecovery(allMessages, st, SourceWording, userUuid, assistantUuid, now, userSize, assistantSize);
    results := pruned.1;
  }

  /** The partition loop of `prune_with_team_protect`: each entry goes to the team
      list or to the list handed to the reducer, in log order. */
  method SplitByTeam(ms: seq<Message>, kw: string -> bool) returns (teamMessages: seq<Message>, nonTeamMessages: seq<Message>)
    ensures teamMessages == TeamPart(ms, kw)
    ensures nonTeamMessages == NonTeamPart(ms, kw)
  {
    teamMessages, nonTeamMessages := [], [];
    for i := 0 to |ms|
      invariant teamMessages == TeamPart(ms[..i], kw)
      invariant nonTeamMessages == NonTeamPart(ms[..i], kw)
    {
      assert ms[..i + 1][..i] == ms[..i];
      PartsAt(ms, i, kw);
      var isTeam := IsTeamMessage(ms[i].entry, kw);
      if isTeam {
        teamMessages := teamMessages + [ms[i]];
      } else {
        nonTeamMessages := nonTeamMessages + [ms[i]];
      }
    }
    assert ms[..|ms|] == ms;
  }
}
