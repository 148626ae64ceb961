/**
 * The coordination classifier (`_is_team_message`) and the two partitions of a
 * log that it induces.
 *
 * The keyword pattern `TEAM_KEYWORDS` is a case-insensitive regular expression;
 * here it is the parameter `kw`, an arbitrary predicate on strings, so every
 * result below holds whatever the pattern matches.
 */
module TeamClassify {
  import opened Session

  /** `TEAM_TOOL_NAMES`: invocations that are coordination by their name alone. */
  const TeamToolNames: set<string> := {
    "TeamCreate", "TeamDelete", "TeamMessage", "SendMessage",
    "TaskCreate", "TaskUpdate", "TaskList", "TaskGet",
    "SpawnTeammate", "TeamStatus"
  }

  /** A `tool_use` block whose `name` is in the vocabulary.  A `name` that is a
      list or an object makes the source's set-membership test raise; `Value`
      does not tell those from numbers and booleans, so they count as misses. */
  predicate ToolUseHit(b: Block) {
    b.Obj? && b.kind == Str("tool_use") && b.name.Str? && b.name.s in TeamToolNames
  }

  /** A `tool_result` block whose `content` (default "") is a matching string. */
  predicate ToolResultHit(b: Block, kw: string -> bool) {
    b.Obj? && b.kind == Str("tool_result") && OrString(b.content, "").Str? && kw(OrString(b.content, "").s)
  }

  /** Any object block whose `text` (default "") is a matching string. */
  predicate TextHit(b: Block, kw: string -> bool) {
    b.Obj? && OrString(b.text, "").Str? && kw(OrString(b.text, "").s)
  }

  predicate BlockHit(b: Block, kw: string -> bool) {
    ToolUseHit(b) || ToolResultHit(b, kw) || TextHit(b, kw)
  }

  /** An entry is coordination-relevant when some object block of its content
      list hits, or when its content is itself a matching string. */
  predicate IsCoordination(e: Entry, kw: string -> bool) {
    match e.content
    case Blocks(bs) => exists i :: 0 <= i < |bs| && BlockHit(bs[i], kw)
    case Text(s) => kw(s)
    case OtherContent => false
  }

  /** `_is_team_message`: scans the blocks in order and stops at the first hit;
      non-object blocks are skipped. */
  method IsTeamMessage(e: Entry, kw: string -> bool) returns (hit: bool)
    ensures hit <==>
      || (e.content.Blocks? &&
            exists i :: 0 <= i < |e.content.blocks| &&
              (ToolUseHit(e.content.blocks[i]) || ToolResultHit(e.content.blocks[i], kw) || TextHit(e.content.blocks[i], kw)))
      || (e.content.Text? && kw(e.content.text))
  {
    match e.content {
      case Blocks(bs) =>
        for i := 0 to |bs|
          invariant forall j :: 0 <= j < i ==> !BlockHit(bs[j], kw)
        {
          var b := bs[i];
          if !b.Obj? {
            continue;
          }
          if b.kind == Str("tool_use") && b.name.Str? && b.name.s in TeamToolNames {
            return true;
          }
          if b.kind == Str("tool_result") {
            var resultContent := OrString(b.content, "");
            if resultContent.Str? && kw(resultContent.s) {
              return true;
            }
          }
          var text := OrString(b.text, "");
          if text.Str? && kw(text.s) {
            return true;
          }
        }
        return false;
      case Text(s) =>
        return kw(s);
      case OtherContent =>
        return false;
    }
  }

  /** The entries the classifier accepts, in log order. */
  function TeamPart(ms: seq<Message>, kw: string -> bool): (r: seq<Message>)
    ensures |r| <= |ms|
  {
    if |ms| == 0 then []
    else if IsCoordination(ms[|ms| - 1].entry, kw) then TeamPart(ms[..|ms| - 1], kw) + [ms[|ms| - 1]]
    else TeamPart(ms[..|ms| - 1], kw)
  }

  /** The entries the classifier rejects, in log order. */
  function NonTeamPart(ms: seq<Message>, kw: string -> bool): (r: seq<Message>)
    ensures |r| <= |ms|
  {
    if |ms| == 0 then []
    else if IsCoordination(ms[|ms| - 1].entry, kw) then NonTeamPart(ms[..|ms| - 1], kw)
    else NonTeamPart(ms[..|ms| - 1], kw) + [ms[|ms| - 1]]
  }

  /** One more entry goes to exactly one of the two parts. */
  lemma PartsStep(ms: seq<Message>, kw: string -> bool)
    requires |ms| > 0
    ensures var init, last := ms[..|ms| - 1], ms[|ms| - 1];
      && (IsCoordination(last.entry, kw) ==>
            TeamPart(ms, kw) == TeamPart(init, kw) + [last] && NonTeamPart(ms, kw) == NonTeamPart(init, kw))
      && (!IsCoordination(last.entry, kw) ==>
            TeamPart(ms, kw) == TeamPart(init, kw) && NonTeamPart(ms, kw) == NonTeamPart(init, kw) + [last])
  {
  }

  /** `PartsStep` for a prefix of a log, as a scan over it uses it. */
  lemma PartsAt(ms: seq<Message>, i: int, kw: string -> bool)
    requires 0 <= i < |ms|
    ensures IsCoordination(ms[i].entry, kw) ==>
      TeamPart(ms[..i + 1], kw) == TeamPart(ms[..i], kw) + [ms[i]] && NonTeamPart(ms[..i + 1], kw) == NonTeamPart(ms[..i], kw)
    ensures !IsCoordination(ms[i].entry, kw) ==>
      TeamPart(ms[..i + 1], kw) == TeamPart(ms[..i], kw) && NonTeamPart(ms[..i + 1], kw) == NonTeamPart(ms[..i], kw) + [ms[i]]
  {
    assert ms[..i + 1][..i] == ms[..i];
    PartsStep(ms[..i + 1], kw);
  }

  /** The team part holds exactly the entries of the log the classifier accepts. */
  lemma {:induction false} TeamPartMembers(ms: seq<Message>, kw: string -> bool, m: Message)
    ensures m in TeamPart(ms, kw) <==> m in ms && IsCoordination(m.entry, kw)
  {
    if |ms| > 0 {
      var init, last := ms[..|ms| - 1], ms[|ms| - 1];
      TeamPartMembers(init, kw, m);
      assert ms == init + [last];
    }
  }

  /** The non-team part holds exactly the entries of the log the classifier rejects. */
  lemma {:induction false} NonTeamPartMembers(ms: seq<Message>, kw: string -> bool, m: Message)
    ensures m in NonTeamPart(ms, kw) <==> m in ms && !IsCoordination(m.entry, kw)
  {
    if |ms| > 0 {
      var init, last := ms[..|ms| - 1], ms[|ms| - 1];
      NonTeamPartMembers(init, kw, m);
      assert ms == init + [last];
    }
  }

  /** `xs` occurs in `ys` in order, possibly with gaps. */
  predicate IsSubsequence(xs: seq<Message>, ys: seq<Message>)
    decreases |ys|
  {
    if |xs| == 0 then true
    else if |ys| == 0 then false
    else if xs[|xs| - 1] == ys[|ys| - 1] then IsSubsequence(xs[..|xs| - 1], ys[..|ys| - 1])
    else IsSubsequence(xs, ys[..|ys| - 1])
  }

  /** Every entry lands in exactly one of the two parts: nothing is added or lost. */
  lemma {:induction false} PartitionExact(ms: seq<Message>, kw: string -> bool)
    ensures multiset(TeamPart(ms, kw)) + multiset(NonTeamPart(ms, kw)) == multiset(ms)
    ensures |TeamPart(ms, kw)| + |NonTeamPart(ms, kw)| == |ms|
  {
    if |ms| > 0 {
      var init, last := ms[..|ms| - 1], ms[|ms| - 1];
      PartitionExact(init, kw);
      PartsStep(ms, kw);
      assert ms == init + [last];
      assert multiset(ms) == multiset(init) + multiset{last};
      var team, rest := TeamPart(init, kw), NonTeamPart(init, kw);
      if IsCoordination(last.entry, kw) {
        assert multiset(team + [last]) == multiset(team) + multiset{last};
      } else {
        assert multiset(rest + [last]) == multiset(rest) + multiset{last};
      }
    }
  }

  /** Each part keeps the log order. */
  lemma {:induction false} PartitionKeepsOrder(ms: seq<Message>, kw: string -> bool)
    ensures IsSubsequence(TeamPart(ms, kw), ms)
    ensures IsSubsequence(NonTeamPart(ms, kw), ms)
  {
    if |ms| > 0 {
      var init, last := ms[..|ms| - 1], ms[|ms| - 1];
      PartitionKeepsOrder(init, kw);
      PartsStep(ms, kw);
      if IsCoordination(last.entry, kw) {
        assert TeamPart(ms, kw)[..|TeamPart(ms, kw)| - 1] == TeamPart(init, kw);
        SubsequenceExtend(NonTeamPart(init, kw), ms);
      } else {
        assert NonTeamPart(ms, kw)[..|NonTeamPart(ms, kw)| - 1] == NonTeamPart(init, kw);
        SubsequenceExtend(TeamPart(init, kw), ms);
      }
    }
  }

  /** A subsequence of all but the last element is a subsequence of the whole. */
  lemma {:induction false} SubsequenceExtend(xs: seq<Message>, ys: seq<Message>)
    requires |ys| > 0 && IsSubsequence(xs, ys[..|ys| - 1])
    ensures IsSubsequence(xs, ys)
    decreases |ys|, |xs|
  {
    if |xs| > 0 && xs[|xs| - 1] == ys[|ys| - 1] {
      SubsequenceDropLast(xs, ys[..|ys| - 1]);
    }
  }

  /** Dropping the last element of a subsequence keeps it a subsequence. */
  lemma {:induction false} SubsequenceDropLast(xs: seq<Message>, ys: seq<Message>)
    requires |xs| > 0 && IsSubsequence(xs, ys)
    ensures IsSubsequence(xs[..|xs| - 1], ys)
    decreases |ys|, |xs|
  {
    var init := ys[..|ys| - 1];
    if xs[|xs| - 1] != ys[|ys| - 1] {
      SubsequenceDropLast(xs, init);
    }
    SubsequenceExtend(xs[..|xs| - 1], ys);
  }
}
