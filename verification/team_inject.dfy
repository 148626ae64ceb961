/**
 * `inject_team_recovery`: after a prune, append a synthetic user/assistant
 * exchange that restates the team, chained onto the last entry that carries a
 * uuid.
 *
 * The fresh uuids, the timestamp and the serialised byte sizes of the two new
 * lines come from `uuid4`, the clock and `json.dumps`; here they are
 * parameters.
 */
module TeamInject {
  import opened Session
  import opened TeamModel

  /** The fixed text of the two synthetic entries: the prompt in front of the
      recovery text, and the confirmation around it with the checkpoint note and
      the closing line. */
  datatype Wording = Wording(prompt: string, confirmed: string, checkpointNote: string, closing: string)

  /** The wording `inject_team_recovery` uses. */
  const SourceWording := Wording(
    "[Cozempic Guard: Context was pruned to prevent compaction. Confirm the current agent team state below.]\n\n",
    "Confirmed — I have an active agent team. ",
    "A team state checkpoint was also written to .claude/team-checkpoint.md.",
    "Continuing with team coordination.")

  /** The position of the last entry whose `uuid` is truthy, or -1 when there is none. */
  function LastWithUuid(ms: seq<Message>): (k: int)
    ensures -1 <= k < |ms|
    ensures k >= 0 ==> Truthy(ms[k].entry.uuid)
    ensures forall j :: k < j < |ms| ==> !Truthy(ms[j].entry.uuid)
  {
    if |ms| == 0 then -1
    else if Truthy(ms[|ms| - 1].entry.uuid) then |ms| - 1
    else LastWithUuid(ms[..|ms| - 1])
  }

  /** `max(idx for idx, _, _ in messages)`. */
  function MaxIndex(ms: seq<Message>): (m: int)
    requires |ms| > 0
    ensures forall i :: 0 <= i < |ms| ==> ms[i].index <= m
  {
    if |ms| == 1 then ms[0].index
    else
      var m := MaxIndex(ms[..|ms| - 1]);
      assert forall i :: 0 <= i < |ms| - 1 ==> ms[..|ms| - 1][i] == ms[i];
      if ms[|ms| - 1].index > m then ms[|ms| - 1].index else m
  }

  /** The maximum is the index of some entry. */
  lemma {:induction false} MaxIndexAttained(ms: seq<Message>)
    requires |ms| > 0
    ensures exists i :: 0 <= i < |ms| && ms[i].index == MaxIndex(ms)
  {
    if |ms| == 1 {
      assert ms[0].index == MaxIndex(ms);
    } else {
      var init := ms[..|ms| - 1];
      if ms[|ms| - 1].index == MaxIndex(ms) {
      } else {
        MaxIndexAttained(init);
        var i :| 0 <= i < |init| && init[i].index == MaxIndex(init);
        assert ms[i] == init[i];
      }
    }
  }

  /** The synthetic user entry: chained onto `anchor`, carrying its session, working
      directory and branch (null where `anchor` has none). */
  function UserEntry(w: Wording, anchor: Entry, recovery: string, userUuid: string, now: string): Entry {
    Entry(Str("user"), Str(userUuid), anchor.uuid, Present(anchor.sessionId), Present(anchor.cwd),
          Present(anchor.gitBranch), Str(now), Other(false), Str("external"), Str("user"),
          Text(w.prompt + recovery))
  }

  function ConfirmationText(w: Wording, recovery: string): string {
    w.confirmed + recovery + "\n\n" + w.checkpointNote + "\n\n" + w.closing
  }

  /** The synthetic assistant entry: one text block, chained onto the user entry. */
  function AssistantEntry(w: Wording, anchor: Entry, recovery: string, userUuid: string, assistantUuid: string, now: string): Entry {
    Entry(Str("assistant"), Str(assistantUuid), Str(userUuid), Present(anchor.sessionId), Present(anchor.cwd),
          Present(anchor.gitBranch), Str(now), Other(false), Str("external"), Str("assistant"),
          Blocks([Obj(Str("text"), Absent, NoInput, Absent, Str(ConfirmationText(w, recovery)))]))
  }

  /** The two synthetic lines, at line indices `next` and `next + 1`. */
  function RecoveryPair(w: Wording, anchor: Entry, recovery: string, userUuid: string, assistantUuid: string, now: string,
                        next: int, userSize: nat, assistantSize: nat): seq<Message> {
    [Message(next, UserEntry(w, anchor, recovery, userUuid, now), userSize),
     Message(next + 1, AssistantEntry(w, anchor, recovery, userUuid, assistantUuid, now), assistantSize)]
  }

  /** The log with the pair for the recovery text `recovery` appended, chained onto
      the last entry with a uuid; the log unchanged when no entry has one. */
  function Recovered(ms: seq<Message>, w: Wording, recovery: string, userUuid: string, assistantUuid: string,
                     now: string, userSize: nat, assistantSize: nat): seq<Message>
  {
    if LastWithUuid(ms) < 0 then ms
    else
      ms + RecoveryPair(w, ms[LastWithUuid(ms)].entry, recovery, userUuid, assistantUuid, now,
                        MaxIndex(ms) + 1, userSize, assistantSize)
  }

  /** `inject_team_recovery`: the log unchanged for an empty state, else the pair
      carrying the state's recovery text appended as `Recovered` says. */
  method InjectTeamRecovery(ms: seq<Message>, st: TeamState, w: Wording, userUuid: string, assistantUuid: string, now: string,
                            userSize: nat, assistantSize: nat) returns (r: seq<Message>)
    ensures st.IsEmpty() ==> r == ms
    ensures !st.IsEmpty() ==> r == Recovered(ms, w, ToRecoveryText(st), userUuid, assistantUuid, now, userSize, assistantSize)
  {
    if st.IsEmpty() {
      return ms;
    }
    var recovery := ToRecoveryText(st);
    r := AppendRecoveryPair(ms, w, recovery, userUuid, assistantUuid, now, userSize, assistantSize);
  }

  /** The rest of `inject_team_recovery`: scans backwards for the anchor, then
      appends the pair at the two line indices after the largest one in use. */
  method AppendRecoveryPair(ms: seq<Message>, w: Wording, recovery: string, userUuid: string, assistantUuid: string,
                            now: string, userSize: nat, assistantSize: nat) returns (r: seq<Message>)
    ensures r == Recovered(ms, w, recovery, userUuid, assistantUuid, now, userSize, assistantSize)
  {
    var anchor := FindAnchor(ms);
    if anchor < 0 {
      return ms;
    }
    var maxIndex := MaxLineIndex(ms);
    var pair := RecoveryPair(w, ms[anchor].entry, recovery, userUuid, assistantUuid, now, maxIndex + 1,
                             userSize, assistantSize);
    r := ms + pair;
    assert pair == RecoveryPair(w, ms[LastWithUuid(ms)].entry, recovery, userUuid, assistantUuid, now,
                                MaxIndex(ms) + 1, userSize, assistantSize);
  }

  /** With an anchor, the result is the log and the pair. */
  lemma RecoveredAppends(ms: seq<Message>, w: Wording, recovery: string, userUuid: string, assistantUuid: string,
                         now: string, userSize: nat, assistantSize: nat)
    requires LastWithUuid(ms) >= 0
    ensures Recovered(ms, w, recovery, userUuid, assistantUuid, now, userSize, assistantSize)
      == ms + RecoveryPair(w, ms[LastWithUuid(ms)].entry, recovery, userUuid, assistantUuid, now,
                           MaxIndex(ms) + 1, userSize, assistantSize)
  {
  }

  /** Without an anchor the log comes back unchanged; otherwise it comes back whole
      with two lines appended, numbered just above every line index in use. */
  lemma RecoveredShape(ms: seq<Message>, w: Wording, recovery: string, userUuid: string, assistantUuid: string,
                       now: string, userSize: nat, assistantSize: nat)
    ensures var r := Recovered(ms, w, recovery, userUuid, assistantUuid, now, userSize, assistantSize);
      && (LastWithUuid(ms) < 0 ==> r == ms)
      && (LastWithUuid(ms) >= 0 ==>
            && |r| == |ms| + 2
            && r[..|ms|] == ms
            && (forall i :: 0 <= i < |ms| ==> r[i].index < r[|ms|].index)
            && r[|ms|].index == MaxIndex(ms) + 1
            && r[|ms| + 1].index == MaxIndex(ms) + 2)
  {
    if LastWithUuid(ms) >= 0 {
      RecoveredAppends(ms, w, recovery, userUuid, assistantUuid, now, userSize, assistantSize);
      var pair := RecoveryPair(w, ms[LastWithUuid(ms)].entry, recovery, userUuid, assistantUuid, now,
                               MaxIndex(ms) + 1, userSize, assistantSize);
      assert (ms + pair)[..|ms|] == ms;
    }
  }

  /** The backward scan for the last entry with a uuid. */
  method FindAnchor(ms: seq<Message>) returns (anchor: int)
    ensures anchor == LastWithUuid(ms)
  {
    anchor := -1;
    var i := |ms|;
    while i > 0
      invariant 0 <= i <= |ms|
      invariant forall j :: i <= j < |ms| ==> !Truthy(ms[j].entry.uuid)
    {
      if Truthy(ms[i - 1].entry.uuid) {
        anchor := i - 1;
        break;
      }
      i := i - 1;
    }
  }

  /** `max(idx for idx, _, _ in messages)`, as a loop. */
  method MaxLineIndex(ms: seq<Message>) returns (maxIndex: int)
    requires |ms| > 0
    ensures maxIndex == MaxIndex(ms)
  {
    maxIndex := ms[0].index;
    for j := 1 to |ms|
      invariant maxIndex == MaxIndex(ms[..j])
    {
      assert ms[..j + 1][..j] == ms[..j];
      if ms[j].index > maxIndex {
        maxIndex := ms[j].index;
      }
    }
    assert ms[..|ms|] == ms;
  }

  /** The user entry hangs off the last entry with a uuid, the assistant entry off
      the user entry, and both copy that entry's session, directory and branch. */
  lemma RecoveredChain(ms: seq<Message>, w: Wording, recovery: string, userUuid: string, assistantUuid: string, now: string,
                       userSize: nat, assistantSize: nat)
    requires exists k :: 0 <= k < |ms| && Truthy(ms[k].entry.uuid)
    ensures var r := Recovered(ms, w, recovery, userUuid, assistantUuid, now, userSize, assistantSize);
      var n := |ms|;
      exists k ::
        && 0 <= k < n && Truthy(ms[k].entry.uuid) && (forall j :: k < j < n ==> !Truthy(ms[j].entry.uuid))
        && r[n].entry.kind == Str("user") && r[n + 1].entry.kind == Str("assistant")
        && r[n].entry.parentUuid == ms[k].entry.uuid
        && r[n + 1].entry.parentUuid == r[n].entry.uuid == Str(userUuid)
        && r[n + 1].entry.uuid == Str(assistantUuid)
        && r[n].entry.sessionId == r[n + 1].entry.sessionId == Present(ms[k].entry.sessionId)
        && r[n].entry.cwd == r[n + 1].entry.cwd == Present(ms[k].entry.cwd)
        && r[n].entry.gitBranch == r[n + 1].entry.gitBranch == Present(ms[k].entry.gitBranch)
        && r[n].entry.timestamp == r[n + 1].entry.timestamp == Str(now)
        && r[n].entry.isSidechain == r[n + 1].entry.isSidechain == Other(false)
        && r[n].entry.userType == r[n + 1].entry.userType == Str("external")
        && r[n].entry.role == Str("user") && r[n + 1].entry.role == Str("assistant")
        && r[n].entry.content == Text(w.prompt + recovery)
        && r[n + 1].entry.content.Blocks? && |r[n + 1].entry.content.blocks| == 1
        && r[n + 1].entry.content.blocks[0].kind == Str("text")
        && r[n + 1].entry.content.blocks[0].text
             == Str(w.confirmed + recovery + "\n\n" + w.checkpointNote + "\n\n" + w.closing)
  {
    var k :| 0 <= k < |ms| && Truthy(ms[k].entry.uuid);
    assert LastWithUuid(ms) >= k;
    RecoveredAppends(ms, w, recovery, userUuid, assistantUuid, now, userSize, assistantSize);
  }

  /** Every truthy uuid of the log is used once. */
  ghost predicate UuidsDistinct(ms: seq<Message>) {
    forall i, j :: 0 <= i < j < |ms| && Truthy(ms[i].entry.uuid) ==> ms[i].entry.uuid != ms[j].entry.uuid
  }

  /** Two fresh, distinct, non-empty uuids keep the uuids of the log distinct. */
  lemma RecoveredUuidsDistinct(ms: seq<Message>, w: Wording, recovery: string, userUuid: string, assistantUuid: string, now: string,
                               userSize: nat, assistantSize: nat)
    requires UuidsDistinct(ms)
    requires userUuid != "" && assistantUuid != "" && userUuid != assistantUuid
    requires forall i :: 0 <= i < |ms| ==> ms[i].entry.uuid != Str(userUuid) && ms[i].entry.uuid != Str(assistantUuid)
    ensures UuidsDistinct(Recovered(ms, w, recovery, userUuid, assistantUuid, now, userSize, assistantSize))
  {
    if LastWithUuid(ms) >= 0 {
      RecoveredAppends(ms, w, recovery, userUuid, assistantUuid, now, userSize, assistantSize);
      var pair := RecoveryPair(w, ms[LastWithUuid(ms)].entry, recovery, userUuid, assistantUuid, now,
                               MaxIndex(ms) + 1, userSize, assistantSize);
      AppendFreshUuids(ms, pair[0], pair[1]);
      assert pair == [pair[0], pair[1]];
    }
  }

  lemma AppendFreshUuids(ms: seq<Message>, u: Message, a: Message)
    requires UuidsDistinct(ms) && u.entry.uuid != a.entry.uuid
    requires forall i :: 0 <= i < |ms| ==> ms[i].entry.uuid != u.entry.uuid && ms[i].entry.uuid != a.entry.uuid
    ensures UuidsDistinct(ms + [u, a])
  {
    var r := ms + [u, a];
    forall i, j | 0 <= i < j < |r| && Truthy(r[i].entry.uuid) ensures r[i].entry.uuid != r[j].entry.uuid {
      if j < |ms| {
        assert r[i] == ms[i] && r[j] == ms[j];
      } else if i < |ms| {
        assert r[i] == ms[i];
      }
    }
  }

  /** Appending at the end keeps a log sorted by line index. */
  lemma RecoveredKeepsOrder(ms: seq<Message>, w: Wording, recovery: string, userUuid: string, assistantUuid: string, now: string,
                            userSize: nat, assistantSize: nat)
    requires SortedByIndex(ms)
    ensures SortedByIndex(Recovered(ms, w, recovery, userUuid, assistantUuid, now, userSize, assistantSize))
  {
    if LastWithUuid(ms) >= 0 {
      RecoveredAppends(ms, w, recovery, userUuid, assistantUuid, now, userSize, assistantSize);
      var pair := RecoveryPair(w, ms[LastWithUuid(ms)].entry, recovery, userUuid, assistantUuid, now,
                               MaxIndex(ms) + 1, userSize, assistantSize);
      AppendAboveSorted(ms, pair[0], pair[1]);
      assert pair == [pair[0], pair[1]];
    }
  }

  lemma AppendAboveSorted(ms: seq<Message>, u: Message, a: Message)
    requires SortedByIndex(ms) && u.index <= a.index
    requires forall i :: 0 <= i < |ms| ==> ms[i].index <= u.index
    ensures SortedByIndex(ms + [u, a])
  {
    var r := ms + [u, a];
    forall i, j | 0 <= i < j < |r| ensures r[i].index <= r[j].index {
      if j < |ms| {
        assert r[i] == ms[i] && r[j] == ms[j];
      } else if i < |ms| {
        assert r[i] == ms[i];
      }
    }
  }
}
