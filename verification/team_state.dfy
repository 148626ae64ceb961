/**
 * The records an extraction pass produces (`TeammateInfo`, `TaskInfo`,
 * `TeamState`), the emptiness test, and the narrative restatement injected
 * into a pruned session.
 */
module TeamModel {
  import opened Text

  datatype TeammateInfo = TeammateInfo(agentId: string, name: string, role: string, status: string)

  datatype TaskInfo = TaskInfo(taskId: string, subject: string, status: string, owner: string, description: string)

  datatype TeamState = TeamState(
    teamName: string,
    teammates: seq<TeammateInfo>,
    tasks: seq<TaskInfo>,
    leadSummary: string,
    messageCount: nat,
    lastCoordinationIndex: int)
  {
    /** No team name, no teammates and no tasks; the message count plays no part. */
    predicate IsEmpty() {
      teamName == "" && |teammates| == 0 && |tasks| == 0
    }
  }

  const NoTeam := TeamState("", [], [], "", 0, -1)

  function TeammateLine(t: TeammateInfo): string {
    "  - " + t.name + " (agent_id: " + t.agentId + ")"
    + (if t.role != "" then " — " + t.role else "")
    + " [" + t.status + "]"
  }

  function TaskLine(t: TaskInfo): string {
    "  - [" + Upper(t.status) + "] " + t.subject
    + (if t.owner != "" then " (owner: " + t.owner + ")" else "")
  }

  function TeammateLines(ts: seq<TeammateInfo>): (r: seq<string>)
    ensures |r| == |ts| && forall i :: 0 <= i < |ts| ==> r[i] == TeammateLine(ts[i])
  {
    seq(|ts|, i requires 0 <= i < |ts| => TeammateLine(ts[i]))
  }

  function TaskLines(ts: seq<TaskInfo>): (r: seq<string>)
    ensures |r| == |ts| && forall i :: 0 <= i < |ts| ==> r[i] == TaskLine(ts[i])
  {
    seq(|ts|, i requires 0 <= i < |ts| => TaskLine(ts[i]))
  }

  /** The teammates section: a heading and one line per teammate, or nothing. */
  function TeammateSection(ts: seq<TeammateInfo>): (r: seq<string>)
    ensures |ts| == 0 ==> r == []
    ensures |ts| > 0 ==>
      && |r| == 1 + |ts| && r[0] == "\nTeammates:"
      && forall i :: 0 <= i < |ts| ==> r[1 + i] == TeammateLine(ts[i])
  {
    if |ts| > 0 then ["\nTeammates:"] + TeammateLines(ts) else []
  }

  /** The task section: a heading and one line per task, or nothing. */
  function TaskSection(ts: seq<TaskInfo>): (r: seq<string>)
    ensures |ts| == 0 ==> r == []
    ensures |ts| > 0 ==>
      && |r| == 1 + |ts| && r[0] == "\nShared task list:"
      && forall i :: 0 <= i < |ts| ==> r[1 + i] == TaskLine(ts[i])
  {
    if |ts| > 0 then ["\nShared task list:"] + TaskLines(ts) else []
  }

  /** Where each section of `a + b + c + d` starts. */
  lemma ConcatIndex(a: seq<string>, b: seq<string>, c: seq<string>, d: seq<string>)
    ensures var all := a + b + c + d;
      && |all| == |a| + |b| + |c| + |d|
      && (forall i :: 0 <= i < |a| ==> all[i] == a[i])
      && (forall i :: 0 <= i < |b| ==> all[|a| + i] == b[i])
      && (forall i :: 0 <= i < |c| ==> all[|a| + |b| + i] == c[i])
      && (forall i :: 0 <= i < |d| ==> all[|a| + |b| + |c| + i] == d[i])
  {
  }

  /** The parts `to_recovery_text` joins with newlines: the team line, then the
      teammates section, the task section and the coordination context, each
      present only when it has something to say, always in that order. */
  function RecoveryParts(st: TeamState): (parts: seq<string>)
    ensures |parts| >= 1
    ensures parts[0] == "Active agent team: " + (if st.teamName == "" then "unnamed" else st.teamName)
    ensures var tmEnd := if |st.teammates| > 0 then 2 + |st.teammates| else 1;
            var taskEnd := if |st.tasks| > 0 then tmEnd + 1 + |st.tasks| else tmEnd;
            && |parts| == taskEnd + (if st.leadSummary != "" then 1 else 0)
            && (|st.teammates| > 0 ==>
                  && parts[1] == "\nTeammates:"
                  && forall i :: 0 <= i < |st.teammates| ==> parts[2 + i] == TeammateLine(st.teammates[i]))
            && (|st.tasks| > 0 ==>
                  && parts[tmEnd] == "\nShared task list:"
                  && forall i :: 0 <= i < |st.tasks| ==> parts[tmEnd + 1 + i] == TaskLine(st.tasks[i]))
            && (st.leadSummary != "" ==> parts[taskEnd] == "\nCoordination context: " + st.leadSummary)
  {
    var head := ["Active agent team: " + (if st.teamName == "" then "unnamed" else st.teamName)];
    var tms := TeammateSection(st.teammates);
    var tks := TaskSection(st.tasks);
    var ctx := if st.leadSummary != "" then ["\nCoordination context: " + st.leadSummary] else [];
    ConcatIndex(head, tms, tks, ctx);
    head + tms + tks + ctx
  }

  /** `TeamState.to_recovery_text`. */
  function ToRecoveryText(st: TeamState): string {
    Join(RecoveryParts(st), "\n")
  }
}
