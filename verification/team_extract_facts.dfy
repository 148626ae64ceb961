/**
 * What the extraction pass guarantees about the state it returns: the
 * bookkeeping fields, the team name, the shape of the two registries, when the
 * state is empty, and that a repeated `TeamCreate` changes nothing.
 */
module TeamExtractFacts {
  import opened Session
  import opened Text
  import opened Registries
  import opened TeamModel
  import opened TeamClassify
  import opened TeamExtract

  // ---------------------------------------------------------------------------
  // Bookkeeping fields

  /** With no classified entry the last coordination index stays -1. */
  lemma {:induction false} LastCoordinationIndexNone(ms: seq<Message>, kw: string -> bool)
    requires forall i :: 0 <= i < |ms| ==> !IsCoordination(ms[i].entry, kw)
    ensures LastCoordinationIndex(ms, kw) == -1
  {
    if |ms| > 0 {
      LastCoordinationIndexNone(ms[..|ms| - 1], kw);
    }
  }

  /** Otherwise it is the line index of the last classified entry. */
  lemma {:induction false} LastCoordinationIndexIsLast(ms: seq<Message>, kw: string -> bool, i: int)
    requires 0 <= i < |ms| && IsCoordination(ms[i].entry, kw)
    requires forall j :: i < j < |ms| ==> !IsCoordination(ms[j].entry, kw)
    ensures LastCoordinationIndex(ms, kw) == ms[i].index
  {
    if i < |ms| - 1 {
      var init := ms[..|ms| - 1];
      assert init[i] == ms[i];
      LastCoordinationIndexIsLast(init, kw, i);
    }
  }

  /** A log without coordination entries yields the empty state. */
  lemma {:induction false} NoCoordinationIsNoTeam(ms: seq<Message>, kw: string -> bool)
    requires forall i :: 0 <= i < |ms| ==> !IsCoordination(ms[i].entry, kw)
    ensures SummaryReadable(ms, kw)
    ensures TeamStateOf(ms, kw) == NoTeam
  {
    NothingClassified(ms, kw);
    LastCoordinationIndexNone(ms, kw);
  }

  lemma {:induction false} NothingClassified(ms: seq<Message>, kw: string -> bool)
    requires forall i :: 0 <= i < |ms| ==> !IsCoordination(ms[i].entry, kw)
    ensures SummaryReadable(ms, kw)
    ensures Calls(ms, kw) == [] && TeamPart(ms, kw) == [] && LeadFragments(ms, kw) == []
  {
    if |ms| > 0 {
      NothingClassified(ms[..|ms| - 1], kw);
    }
  }

  // ---------------------------------------------------------------------------
  // The team name

  /** A `TeamCreate` whose input has a `name` key. */
  predicate NamesTeam(c: ToolCall) {
    c.name == Str("TeamCreate") && "name" in c.input.fields
  }

  /** One call renames the team exactly when it is a `TeamCreate` with a `name`. */
  lemma StepTeamName(s: Scan, c: ToolCall)
    requires s.Valid()
    ensures Step(s, c).teamName == if NamesTeam(c) then c.input.fields["name"] else s.teamName
  {
  }

  /** The team name alone, call by call. */
  function NameAfter(name: string, cs: seq<ToolCall>): string {
    if |cs| == 0 then name
    else if NamesTeam(cs[|cs| - 1]) then cs[|cs| - 1].input.fields["name"]
    else NameAfter(name, cs[..|cs| - 1])
  }

  /** Replay moves the team name exactly as `NameAfter` does. */
  lemma {:induction false} ReplayName(s: Scan, cs: seq<ToolCall>)
    requires s.Valid()
    ensures Replay(s, cs).teamName == NameAfter(s.teamName, cs)
  {
    if |cs| > 0 {
      ReplayName(s, cs[..|cs| - 1]);
      ReplayLast(s, cs);
      StepTeamName(Replay(s, cs[..|cs| - 1]), cs[|cs| - 1]);
    }
  }

  lemma {:induction false} NameAfterUnnamed(name: string, cs: seq<ToolCall>)
    requires forall i :: 0 <= i < |cs| ==> !NamesTeam(cs[i])
    ensures NameAfter(name, cs) == name
  {
    if |cs| > 0 {
      var init := cs[..|cs| - 1];
      assert forall i :: 0 <= i < |init| ==> !NamesTeam(init[i]) by {
        assert forall i :: 0 <= i < |init| ==> init[i] == cs[i];
      }
      NameAfterUnnamed(name, init);
    }
  }

  lemma {:induction false} NameAfterLastNamed(name: string, cs: seq<ToolCall>, i: int)
    requires 0 <= i < |cs| && NamesTeam(cs[i])
    requires forall j :: i < j < |cs| ==> !NamesTeam(cs[j])
    ensures NameAfter(name, cs) == cs[i].input.fields["name"]
    decreases |cs|
  {
    if i < |cs| - 1 {
      var init := cs[..|cs| - 1];
      assert !NamesTeam(cs[|cs| - 1]);
      assert init[i] == cs[i];
      assert forall j :: i < j < |init| ==> !NamesTeam(init[j]) by {
        assert forall j :: i < j < |init| ==> init[j] == cs[j];
      }
      NameAfterLastNamed(name, init, i);
    }
  }

  /** The team name is the `name` of the last `TeamCreate` that has one, even when
      that name is empty; without such a call it is the name replay started from. */
  lemma TeamNameIsLastNamed(s: Scan, cs: seq<ToolCall>)
    requires s.Valid()
    ensures (forall i :: 0 <= i < |cs| ==> !NamesTeam(cs[i])) ==> Replay(s, cs).teamName == s.teamName
    ensures forall i :: 0 <= i < |cs| && NamesTeam(cs[i]) && (forall j :: i < j < |cs| ==> !NamesTeam(cs[j])) ==>
              Replay(s, cs).teamName == cs[i].input.fields["name"]
  {
    ReplayName(s, cs);
    if forall i :: 0 <= i < |cs| ==> !NamesTeam(cs[i]) {
      NameAfterUnnamed(s.teamName, cs);
    }
    forall i | 0 <= i < |cs| && NamesTeam(cs[i]) && (forall j :: i < j < |cs| ==> !NamesTeam(cs[j]))
      ensures Replay(s, cs).teamName == cs[i].input.fields["name"]
    {
      NameAfterLastNamed(s.teamName, cs, i);
    }
  }

  // ---------------------------------------------------------------------------
  // The registries

  /** Teammates are listed once per non-empty agent id, all `running`; tasks are
      listed once per task id. */
  lemma ExtractedRecordsWellFormed(ms: seq<Message>, kw: string -> bool)
    requires SummaryReadable(ms, kw)
    ensures var st := TeamStateOf(ms, kw);
      && (forall i :: 0 <= i < |st.teammates| ==> st.teammates[i].agentId != "" && st.teammates[i].status == "running")
      && (forall i, j :: 0 <= i < j < |st.teammates| ==> st.teammates[i].agentId != st.teammates[j].agentId)
      && (forall i, j :: 0 <= i < j < |st.tasks| ==> st.tasks[i].taskId != st.tasks[j].taskId)
  {
    var s := Replay(Start(), Calls(ms, kw));
    assert s.Valid();
    var tms, tks := s.teammates.Values(), s.tasks.Values();
    forall i | 0 <= i < |tms| ensures tms[i].agentId == s.teammates.keys[i] {
      assert s.teammates.keys[i] in s.teammates.entries;
    }
    forall i | 0 <= i < |tks| ensures tks[i].taskId == s.tasks.keys[i] {
      assert s.tasks.keys[i] in s.tasks.entries;
    }
  }

  /** A call that always admits a task. */
  predicate AdmitsTask(c: ToolCall) {
    c.name == Str("TaskCreate") || c.name == Str("TaskUpdate")
  }

  /** A `TeamCreate` with at least one descriptor carrying an agent id. */
  predicate AdmitsTeammate(c: ToolCall) {
    c.name == Str("TeamCreate") && exists j :: 0 <= j < |c.input.teammates| && AgentIdOf(c.input.teammates[j]) != ""
  }

  lemma {:induction false} AddTeammatesEmptyIff(reg: Registry<TeammateInfo>, tms: seq<map<string, string>>)
    requires TeammatesValid(reg)
    ensures |AddTeammates(reg, tms).keys| == 0 <==>
              |reg.keys| == 0 && forall j :: 0 <= j < |tms| ==> AgentIdOf(tms[j]) == ""
  {
    if |tms| > 0 {
      var init := tms[..|tms| - 1];
      AddTeammatesEmptyIff(reg, init);
      assert forall j :: 0 <= j < |init| ==> init[j] == tms[j];
      var r := AddTeammates(reg, init);
      if AgentIdOf(tms[|tms| - 1]) != "" {
        assert AgentIdOf(tms[|tms| - 1]) in AddTeammates(reg, tms).entries;
      }
    }
  }

  /** Replay ends with no task exactly when it started with none and no call was a
      `TaskCreate` or `TaskUpdate`. */
  lemma {:induction false} TasksEmptyIff(s: Scan, cs: seq<ToolCall>)
    requires s.Valid()
    ensures |Replay(s, cs).tasks.keys| == 0 <==> |s.tasks.keys| == 0 && forall i :: 0 <= i < |cs| ==> !AdmitsTask(cs[i])
  {
    if |cs| > 0 {
      var init, c := cs[..|cs| - 1], cs[|cs| - 1];
      TasksEmptyIff(s, init);
      NoneOfLast(cs);
      ReplayLast(s, cs);
      StepTasksEmptyIff(Replay(s, init), c);
    }
  }

  /** `none of cs` is `none of all but the last, and not the last`, for both kinds
      of call. */
  lemma NoneOfLast(cs: seq<ToolCall>)
    requires |cs| > 0
    ensures var init := cs[..|cs| - 1];
      (forall i :: 0 <= i < |cs| ==> !AdmitsTask(cs[i])) <==>
        (forall i :: 0 <= i < |init| ==> !AdmitsTask(init[i])) && !AdmitsTask(cs[|cs| - 1])
    ensures var init := cs[..|cs| - 1];
      (forall i :: 0 <= i < |cs| ==> !AdmitsTeammate(cs[i])) <==>
        (forall i :: 0 <= i < |init| ==> !AdmitsTeammate(init[i])) && !AdmitsTeammate(cs[|cs| - 1])
  {
    assert forall i :: 0 <= i < |cs| - 1 ==> cs[..|cs| - 1][i] == cs[i];
  }

  /** One unfolding of `Replay` at the last call. */
  lemma ReplayLast(s: Scan, cs: seq<ToolCall>)
    requires s.Valid() && |cs| > 0
    ensures Replay(s, cs) == Step(Replay(s, cs[..|cs| - 1]), cs[|cs| - 1])
  {
  }

  lemma StepTasksEmptyIff(s: Scan, c: ToolCall)
    requires s.Valid()
    ensures |Step(s, c).tasks.keys| == 0 <==> |s.tasks.keys| == 0 && !AdmitsTask(c)
  {
    if c.name == Str("TaskCreate") {
      assert CreatedTaskId(s.tasks, c.input) in Step(s, c).tasks.entries;
    } else if c.name == Str("TaskUpdate") {
      assert UpdatedTaskId(c.input) in Step(s, c).tasks.entries;
    }
  }

  /** Replay ends with no teammate exactly when it started with none and no
      `TeamCreate` carried a descriptor with an agent id. */
  lemma {:induction false} TeammatesEmptyIff(s: Scan, cs: seq<ToolCall>)
    requires s.Valid()
    ensures |Replay(s, cs).teammates.keys| == 0 <==>
              |s.teammates.keys| == 0 && forall i :: 0 <= i < |cs| ==> !AdmitsTeammate(cs[i])
  {
    if |cs| > 0 {
      var init, c := cs[..|cs| - 1], cs[|cs| - 1];
      TeammatesEmptyIff(s, init);
      NoneOfLast(cs);
      ReplayLast(s, cs);
      StepTeammatesEmptyIff(Replay(s, init), c);
    }
  }

  lemma StepTeammatesEmptyIff(s: Scan, c: ToolCall)
    requires s.Valid()
    ensures |Step(s, c).teammates.keys| == 0 <==> |s.teammates.keys| == 0 && !AdmitsTeammate(c)
  {
    if c.name == Str("TeamCreate") {
      AddTeammatesEmptyIff(s.teammates, c.input.teammates);
    }
  }

  /** `is_empty` of the extracted state: no team name, and no call in the
      coordination entries that admits a teammate or a task. */
  lemma IsEmptyIff(ms: seq<Message>, kw: string -> bool)
    requires SummaryReadable(ms, kw)
    ensures TeamStateOf(ms, kw).IsEmpty() <==>
      && Replay(Start(), Calls(ms, kw)).teamName == ""
      && (forall i :: 0 <= i < |Calls(ms, kw)| ==> !AdmitsTask(Calls(ms, kw)[i]) && !AdmitsTeammate(Calls(ms, kw)[i]))
  {
    TasksEmptyIff(Start(), Calls(ms, kw));
    TeammatesEmptyIff(Start(), Calls(ms, kw));
  }

  // ---------------------------------------------------------------------------
  // A repeated TeamCreate

  /** The position of the last descriptor with agent id `k`, or -1. */
  function LastWith(tms: seq<map<string, string>>, k: string): (j: int)
    ensures -1 <= j < |tms|
    ensures j >= 0 ==> k != "" && AgentIdOf(tms[j]) == k
  {
    if |tms| == 0 then -1
    else if k != "" && AgentIdOf(tms[|tms| - 1]) == k then |tms| - 1
    else LastWith(tms[..|tms| - 1], k)
  }

  lemma {:induction false} LastWithFindsEvery(tms: seq<map<string, string>>, j: int)
    requires 0 <= j < |tms| && AgentIdOf(tms[j]) != ""
    ensures LastWith(tms, AgentIdOf(tms[j])) >= j
  {
    if j < |tms| - 1 && AgentIdOf(tms[|tms| - 1]) != AgentIdOf(tms[j]) {
      var init := tms[..|tms| - 1];
      assert init[j] == tms[j];
      LastWithFindsEvery(init, j);
    }
  }

  /** After a `TeamCreate`, each id holds the record of its last descriptor; ids
      the input does not mention are untouched. */
  lemma {:induction false} AddTeammatesEntries(reg: Registry<TeammateInfo>, tms: seq<map<string, string>>, k: string)
    requires TeammatesValid(reg)
    ensures var r := AddTeammates(reg, tms);
      var j := LastWith(tms, k);
      && (j >= 0 ==> k in r.entries && r.entries[k] == TeammateOf(tms[j]))
      && (j < 0 ==> (k in r.entries <==> k in reg.entries) && (k in reg.entries ==> r.entries[k] == reg.entries[k]))
  {
    if |tms| > 0 {
      var init, d := tms[..|tms| - 1], tms[|tms| - 1];
      AddTeammatesEntries(reg, init, k);
      var before, r := AddTeammates(reg, init), AddTeammates(reg, tms);
      assert r == AddTeammate(before, d);
      var id := AgentIdOf(d);
      if id == "" {
        assert r == before;
      } else if id == k {
        assert r.entries[k] == TeammateOf(d);
      } else {
        assert r.entries == before.entries[id := TeammateOf(d)];
        assert LastWith(tms, k) == LastWith(init, k);
        assert (k in r.entries <==> k in before.entries) && (k in before.entries ==> r.entries[k] == before.entries[k]);
      }
    }
  }

  /** A `TeamCreate` whose ids are all known keeps the order of the teammates. */
  lemma {:induction false} AddKnownTeammatesKeepsKeys(reg: Registry<TeammateInfo>, tms: seq<map<string, string>>)
    requires TeammatesValid(reg)
    requires forall j :: 0 <= j < |tms| && AgentIdOf(tms[j]) != "" ==> AgentIdOf(tms[j]) in reg.entries
    ensures AddTeammates(reg, tms).keys == reg.keys
    ensures AddTeammates(reg, tms).entries.Keys == reg.entries.Keys
  {
    if |tms| > 0 {
      var init := tms[..|tms| - 1];
      assert forall j :: 0 <= j < |init| ==> init[j] == tms[j];
      AddKnownTeammatesKeepsKeys(reg, init);
    }
  }

  /** Applying the same `TeamCreate` input twice is the same as applying it once. */
  lemma AddTeammatesIdempotent(reg: Registry<TeammateInfo>, tms: seq<map<string, string>>)
    requires TeammatesValid(reg)
    ensures AddTeammates(AddTeammates(reg, tms), tms) == AddTeammates(reg, tms)
  {
    var once := AddTeammates(reg, tms);
    var twice := AddTeammates(once, tms);
    forall j | 0 <= j < |tms| && AgentIdOf(tms[j]) != "" ensures AgentIdOf(tms[j]) in once.entries {
      LastWithFindsEvery(tms, j);
      AddTeammatesEntries(reg, tms, AgentIdOf(tms[j]));
    }
    AddKnownTeammatesKeepsKeys(once, tms);
    forall k | k in twice.entries ensures twice.entries[k] == once.entries[k] {
      AddTeammatesEntries(reg, tms, k);
      AddTeammatesEntries(once, tms, k);
    }
    assert twice.entries == once.entries;
  }

  /** A duplicated `TeamCreate` invocation leaves the state as the first one did. */
  lemma RepeatedTeamCreateIsNoOp(s: Scan, c: ToolCall)
    requires s.Valid() && c.name == Str("TeamCreate")
    ensures Step(Step(s, c), c) == Step(s, c)
  {
    AddTeammatesIdempotent(s.teammates, c.input.teammates);
  }
}
