/**
 * `extract_team_state`: one forward pass over the log that counts the
 * coordination entries, replays their tool invocations into id-keyed
 * registries of teammates and tasks, and then a second pass that collects the
 * lead summary.
 *
 * The loop is specified by a fold: `Calls` lists the `tool_use` blocks of the
 * coordination entries in log order, and `Replay` applies `Step` to them one
 * by one.  The properties of the extracted state are proved about that fold.
 */
module TeamExtract {
  import opened Session
  import opened Text
  import opened Registries
  import opened TeamModel
  import opened TeamClassify

  // ---------------------------------------------------------------------------
  // The tool invocations the pass interprets

  /** A `tool_use` block: its `name` value and its `input` object. */
  datatype ToolCall = ToolCall(name: Value, input: ToolInput)

  function CallOf(b: Block): seq<ToolCall> {
    if b.Obj? && b.kind == Str("tool_use") then [ToolCall(b.name, b.input)] else []
  }

  function CallsOfBlocks(bs: seq<Block>): seq<ToolCall> {
    if |bs| == 0 then [] else CallsOfBlocks(bs[..|bs| - 1]) + CallOf(bs[|bs| - 1])
  }

  /** Only coordination entries whose content is a list contribute calls. */
  function CallsOfEntry(e: Entry, kw: string -> bool): seq<ToolCall> {
    if IsCoordination(e, kw) && e.content.Blocks? then CallsOfBlocks(e.content.blocks) else []
  }

  function Calls(ms: seq<Message>, kw: string -> bool): seq<ToolCall> {
    if |ms| == 0 then [] else Calls(ms[..|ms| - 1], kw) + CallsOfEntry(ms[|ms| - 1].entry, kw)
  }

  // ---------------------------------------------------------------------------
  // The state carried between calls

  /** Teammates are keyed by their non-empty agent id and are always `running`. */
  ghost predicate TeammatesValid(reg: Registry<TeammateInfo>) {
    && reg.Valid()
    && forall k :: k in reg.entries ==>
         k != "" && reg.entries[k].agentId == k && reg.entries[k].status == "running"
  }

  /** Tasks are keyed by their task id. */
  ghost predicate TasksValid(reg: Registry<TaskInfo>) {
    reg.Valid() && forall k :: k in reg.entries ==> reg.entries[k].taskId == k
  }

  datatype Scan = Scan(teamName: string, teammates: Registry<TeammateInfo>, tasks: Registry<TaskInfo>) {
    ghost predicate Valid() {
      TeammatesValid(teammates) && TasksValid(tasks)
    }
  }

  function Start(): (s: Scan)
    ensures s.Valid() && s.teamName == "" && s.teammates.keys == [] && s.tasks.keys == []
  {
    Scan("", Empty(), Empty())
  }

  // ---------------------------------------------------------------------------
  // One call

  function AgentIdOf(tm: map<string, string>): string {
    Lookup(tm, "agentId", Lookup(tm, "agent_id", ""))
  }

  /** The record a teammate descriptor yields: the name defaults to the agent id,
      the role to the descriptor's `description`, and the status is `running`. */
  function TeammateOf(tm: map<string, string>): TeammateInfo {
    TeammateInfo(AgentIdOf(tm), Lookup(tm, "name", AgentIdOf(tm)), Lookup(tm, "role", Lookup(tm, "description", "")), "running")
  }

  /** One teammate descriptor of a `TeamCreate` input: skipped without an agent id,
      otherwise stored as `running`, replacing an earlier record of the same id in
      that record's place. */
  function AddTeammate(reg: Registry<TeammateInfo>, tm: map<string, string>): (r: Registry<TeammateInfo>)
    requires TeammatesValid(reg)
    ensures TeammatesValid(r)
    ensures AgentIdOf(tm) == "" ==> r == reg
    ensures AgentIdOf(tm) != "" ==>
      && r.entries == reg.entries[AgentIdOf(tm) := TeammateOf(tm)]
      && r.keys == (if AgentIdOf(tm) in reg.entries then reg.keys else reg.keys + [AgentIdOf(tm)])
  {
    var id := AgentIdOf(tm);
    if id == "" then reg else reg.Put(id, TeammateOf(tm))
  }

  function AddTeammates(reg: Registry<TeammateInfo>, tms: seq<map<string, string>>): (r: Registry<TeammateInfo>)
    requires TeammatesValid(reg)
    ensures TeammatesValid(r)
  {
    if |tms| == 0 then reg else AddTeammate(AddTeammates(reg, tms[..|tms| - 1]), tms[|tms| - 1])
  }

  /** `TeamCreate`: the team takes the input's `name` when the key is present (even
      when it is empty), and every descriptor is upserted. */
  function CreateTeam(s: Scan, inp: ToolInput): (r: Scan)
    requires s.Valid()
    ensures r.Valid()
    ensures r.teamName == Lookup(inp.fields, "name", s.teamName)
    ensures r.tasks == s.tasks
  {
    Scan(Lookup(inp.fields, "name", s.teamName), AddTeammates(s.teammates, inp.teammates), s.tasks)
  }

  /** Storing a task under its own id keeps the task registry valid. */
  lemma PutTaskValid(tasks: Registry<TaskInfo>, task: TaskInfo)
    requires TasksValid(tasks)
    ensures TasksValid(tasks.Put(task.taskId, task))
  {
  }

  function CreatedTaskId(tasks: Registry<TaskInfo>, inp: ToolInput): string {
    Lookup(inp.fields, "taskId", Lookup(inp.fields, "id", NatToString(|tasks.entries|)))
  }

  /** `TaskCreate`: the task is stored as `pending` under its `taskId`, else its
      `id`, else the decimal count of tasks seen so far; an existing task of that
      id is replaced in its place, every other task is left alone. */
  function CreateTask(tasks: Registry<TaskInfo>, inp: ToolInput): (r: Registry<TaskInfo>)
    requires TasksValid(tasks)
    ensures TasksValid(r)
    ensures var id := CreatedTaskId(tasks, inp);
      && r.entries.Keys == tasks.entries.Keys + {id}
      && r.entries[id] == TaskInfo(id, Lookup(inp.fields, "subject", Lookup(inp.fields, "title", "")), "pending",
                                   Lookup(inp.fields, "owner", ""), Lookup(inp.fields, "description", ""))
      && (forall k :: k in tasks.entries && k != id ==> r.entries[k] == tasks.entries[k])
      && r.keys == (if id in tasks.entries then tasks.keys else tasks.keys + [id])
  {
    var id := CreatedTaskId(tasks, inp);
    var subject := Lookup(inp.fields, "subject", Lookup(inp.fields, "title", ""));
    var task := TaskInfo(id, subject, "pending", Lookup(inp.fields, "owner", ""), Lookup(inp.fields, "description", ""));
    PutTaskValid(tasks, task);
    tasks.Put(id, task)
  }

  function UpdatedTaskId(inp: ToolInput): string {
    Lookup(inp.fields, "taskId", Lookup(inp.fields, "id", ""))
  }

  /** `TaskUpdate`: on a known task only `status` and `owner` change, each only
      when the input carries a non-empty value; an unknown id is admitted as a new
      task with status defaulting to `unknown`, subject to "" and no description. */
  function UpdateTask(tasks: Registry<TaskInfo>, inp: ToolInput): (r: Registry<TaskInfo>)
    requires TasksValid(tasks)
    ensures TasksValid(r)
    ensures var id := UpdatedTaskId(inp);
      && r.entries.Keys == tasks.entries.Keys + {id}
      && (forall k :: k in tasks.entries && k != id ==> r.entries[k] == tasks.entries[k])
      && (id in tasks.entries ==>
            && r.keys == tasks.keys
            && var before := tasks.entries[id];
            && r.entries[id].subject == before.subject
            && r.entries[id].description == before.description
            && r.entries[id].status == (if Lookup(inp.fields, "status", "") != "" then inp.fields["status"] else before.status)
            && r.entries[id].owner == (if Lookup(inp.fields, "owner", "") != "" then inp.fields["owner"] else before.owner))
      && (id !in tasks.entries ==>
            && r.keys == tasks.keys + [id]
            && r.entries[id] == TaskInfo(id, Lookup(inp.fields, "subject", ""), Lookup(inp.fields, "status", "unknown"),
                                         Lookup(inp.fields, "owner", ""), ""))
  {
    var id := UpdatedTaskId(inp);
    if id in tasks.entries then
      var t := tasks.entries[id];
      var withStatus := if Lookup(inp.fields, "status", "") != "" then t.(status := inp.fields["status"]) else t;
      var withOwner := if Lookup(inp.fields, "owner", "") != "" then withStatus.(owner := inp.fields["owner"]) else withStatus;
      PutTaskValid(tasks, withOwner);
      tasks.Put(id, withOwner)
    else
      var task := TaskInfo(id, Lookup(inp.fields, "subject", ""), Lookup(inp.fields, "status", "unknown"),
                           Lookup(inp.fields, "owner", ""), "");
      PutTaskValid(tasks, task);
      tasks.Put(id, task)
  }

  function MessageTarget(inp: ToolInput): string {
    Lookup(inp.fields, "to", Lookup(inp.fields, "agentId", ""))
  }

  /** `SendMessage` / `TeamMessage`: a message to a known agent marks it `running`;
      an unknown or empty target changes nothing. */
  function MarkLive(reg: Registry<TeammateInfo>, inp: ToolInput): (r: Registry<TeammateInfo>)
    requires TeammatesValid(reg)
    ensures TeammatesValid(r)
    ensures r.keys == reg.keys
    ensures var t := MessageTarget(inp);
      if t != "" && t in reg.entries then r.entries == reg.entries[t := reg.entries[t].(status := "running")]
      else r == reg
  {
    var target := MessageTarget(inp);
    if target != "" && target in reg.entries then
      Registry(reg.keys, reg.entries[target := reg.entries[target].(status := "running")])
    else reg
  }

  /** Every teammate is stored as `running` and nothing ever changes that, so the
      liveness update of a message never alters the registry. */
  lemma MarkLiveIsNoOp(reg: Registry<TeammateInfo>, inp: ToolInput)
    requires TeammatesValid(reg)
    ensures MarkLive(reg, inp) == reg
  {
    var t := MessageTarget(inp);
    if t != "" && t in reg.entries {
      assert reg.entries[t := reg.entries[t].(status := "running")] == reg.entries;
    }
  }

  function Step(s: Scan, c: ToolCall): (r: Scan)
    requires s.Valid()
    ensures r.Valid()
  {
    if c.name == Str("TeamCreate") then CreateTeam(s, c.input)
    else if c.name == Str("TaskCreate") then s.(tasks := CreateTask(s.tasks, c.input))
    else if c.name == Str("TaskUpdate") then s.(tasks := UpdateTask(s.tasks, c.input))
    else if c.name == Str("SendMessage") || c.name == Str("TeamMessage") then s.(teammates := MarkLive(s.teammates, c.input))
    else s
  }

  function Replay(s: Scan, cs: seq<ToolCall>): (r: Scan)
    requires s.Valid()
    ensures r.Valid()
  {
    if |cs| == 0 then s else Step(Replay(s, cs[..|cs| - 1]), cs[|cs| - 1])
  }

  lemma {:induction false} ReplayAppend(s: Scan, a: seq<ToolCall>, b: seq<ToolCall>)
    requires s.Valid()
    ensures Replay(s, a + b) == Replay(Replay(s, a), b)
    decreases |b|
  {
    if |b| == 0 {
      assert a + b == a;
    } else {
      ReplayAppend(s, a, b[..|b| - 1]);
      assert (a + b)[..|a + b| - 1] == a + b[..|b| - 1];
    }
  }

  // ---------------------------------------------------------------------------
  // The lead summary

  const SummarySeparator := " [...] "
  const FragmentLimit := 300

  /** The pass reads `block.get("type")` and `block.get("text", "")[:300]` without
      checking that the block is an object or that the text is a string. A
      non-object block, or a text that is null, a number, a boolean or an
      object, fails there; an array slices, and fails only at the join when it
      is among the last three fragments. `Value` does not single out arrays, so
      the model requires every block to be an object and every text a string. */
  ghost predicate ReadableBlocks(bs: seq<Block>) {
    forall i :: 0 <= i < |bs| ==>
      bs[i].Obj? && (bs[i].kind == Str("text") ==> bs[i].text.Absent? || bs[i].text.Str?)
  }

  predicate SummarySource(e: Entry, kw: string -> bool) {
    e.kind == Str("assistant") && IsCoordination(e, kw) && e.content.Blocks?
  }

  ghost predicate SummaryReadable(ms: seq<Message>, kw: string -> bool) {
    forall i :: 0 <= i < |ms| && SummarySource(ms[i].entry, kw) ==> ReadableBlocks(ms[i].entry.content.blocks)
  }

  function TextOf(b: Block): string
    requires b.Obj?
  {
    if b.text.Str? then b.text.s else ""
  }

  function TextFragments(bs: seq<Block>): (r: seq<string>)
    requires ReadableBlocks(bs)
    ensures forall i :: 0 <= i < |r| ==> |r[i]| <= FragmentLimit
  {
    if |bs| == 0 then []
    else TextFragments(bs[..|bs| - 1])
         + (if bs[|bs| - 1].kind == Str("text") then [Take(TextOf(bs[|bs| - 1]), FragmentLimit)] else [])
  }

  /** Every `text` block of the assistant coordination entries, cut to 300
      characters, oldest first. */
  function LeadFragments(ms: seq<Message>, kw: string -> bool): (r: seq<string>)
    requires SummaryReadable(ms, kw)
    ensures forall i :: 0 <= i < |r| ==> |r[i]| <= FragmentLimit
  {
    if |ms| == 0 then []
    else
      LeadFragments(ms[..|ms| - 1], kw)
      + (if SummarySource(ms[|ms| - 1].entry, kw) then TextFragments(ms[|ms| - 1].entry.content.blocks) else [])
  }

  function LastThree(xs: seq<string>): (r: seq<string>)
    ensures |r| == if |xs| < 3 then |xs| else 3
    ensures r == xs[|xs| - |r|..]
  {
    if |xs| <= 3 then xs else xs[|xs| - 3..]
  }

  /** The last three fragments, oldest first, joined by " [...] ". */
  function LeadSummary(frags: seq<string>): (r: string)
    ensures |frags| == 0 ==> r == ""
    ensures |frags| == 1 ==> r == frags[0]
  {
    if |frags| > 0 then Join(LastThree(frags), SummarySeparator) else ""
  }

  /** A lead summary never exceeds three fragments of 300 characters and two separators. */
  lemma LeadSummaryBound(frags: seq<string>)
    requires forall i :: 0 <= i < |frags| ==> |frags[i]| <= FragmentLimit
    ensures |LeadSummary(frags)| <= 3 * FragmentLimit + 2 * |SummarySeparator|
  {
    if |frags| > 0 {
      var last := LastThree(frags);
      LastThreeBounded(frags);
      JoinAtMostThree(last, SummarySeparator);
    }
  }

  lemma LastThreeBounded(frags: seq<string>)
    requires forall i :: 0 <= i < |frags| ==> |frags[i]| <= FragmentLimit
    ensures forall i :: 0 <= i < |LastThree(frags)| ==> |LastThree(frags)[i]| <= FragmentLimit
  {
    var last := LastThree(frags);
    forall i | 0 <= i < |last| ensures |last[i]| <= FragmentLimit {
      assert last[i] == frags[|frags| - |last| + i];
    }
  }

  /** Joining at most three bounded parts. */
  lemma JoinAtMostThree(parts: seq<string>, sep: string)
    requires 1 <= |parts| <= 3
    requires forall i :: 0 <= i < |parts| ==> |parts[i]| <= FragmentLimit
    ensures |Join(parts, sep)| <= 3 * FragmentLimit + 2 * |sep|
  {
    if |parts| >= 2 {
      var init := parts[..|parts| - 1];
      assert |Join(parts, sep)| == |Join(init, sep)| + |sep| + |parts[|parts| - 1]|;
      if |init| == 2 {
        assert |Join(init, sep)| == |init[0]| + |sep| + |init[1]|;
      }
    }
  }

  // ---------------------------------------------------------------------------
  // The extracted state

  function LastCoordinationIndex(ms: seq<Message>, kw: string -> bool): int {
    if |ms| == 0 then -1
    else if IsCoordination(ms[|ms| - 1].entry, kw) then ms[|ms| - 1].index
    else LastCoordinationIndex(ms[..|ms| - 1], kw)
  }

  /** What `extract_team_state` returns for a log. */
  function TeamStateOf(ms: seq<Message>, kw: string -> bool): TeamState
    requires SummaryReadable(ms, kw)
  {
    var s := Replay(Start(), Calls(ms, kw));
    TeamState(s.teamName, s.teammates.Values(), s.tasks.Values(),
              LeadSummary(LeadFragments(ms, kw)), |TeamPart(ms, kw)|, LastCoordinationIndex(ms, kw))
  }

  /** The descriptor loop of a `TeamCreate`. */
  method UpsertTeammates(reg: Registry<TeammateInfo>, tms: seq<map<string, string>>) returns (r: Registry<TeammateInfo>)
    requires TeammatesValid(reg)
    ensures r == AddTeammates(reg, tms)
  {
    r := reg;
    for k := 0 to |tms|
      invariant r == AddTeammates(reg, tms[..k])
    {
      assert tms[..k + 1][..k] == tms[..k];
      var tm := tms[k];
      var agentId := Lookup(tm, "agentId", Lookup(tm, "agent_id", ""));
      if agentId != "" {
        r := r.Put(agentId, TeammateInfo(agentId, Lookup(tm, "name", agentId),
                                         Lookup(tm, "role", Lookup(tm, "description", "")), "running"));
      }
    }
    assert tms[..|tms|] == tms;
  }

  /** One `tool_use` block of a coordination entry, applied to the three
      accumulators of the pass (the team name and the two dictionaries). */
  method ApplyCall(teamName: string, teammates: Registry<TeammateInfo>, tasks: Registry<TaskInfo>, name: Value, inp: ToolInput)
    returns (teamName': string, teammates': Registry<TeammateInfo>, tasks': Registry<TaskInfo>)
    requires Scan(teamName, teammates, tasks).Valid()
    ensures Scan(teamName', teammates', tasks') == Step(Scan(teamName, teammates, tasks), ToolCall(name, inp))
  {
    teamName', teammates', tasks' := teamName, teammates, tasks;
    if name == Str("TeamCreate") {
      teamName' := Lookup(inp.fields, "name", teamName);
      teammates' := UpsertTeammates(teammates, inp.teammates);
    } else if name == Str("TaskCreate") {
      tasks' := ApplyTaskCreate(tasks, inp);
    } else if name == Str("TaskUpdate") {
      tasks' := ApplyTaskUpdate(tasks, inp);
    } else if name == Str("SendMessage") || name == Str("TeamMessage") {
      teammates' := ApplyMessage(teammates, inp);
    }
  }

  /** The `TaskCreate` branch of the pass. */
  method ApplyTaskCreate(tasks: Registry<TaskInfo>, inp: ToolInput) returns (tasks': Registry<TaskInfo>)
    requires TasksValid(tasks)
    ensures tasks' == CreateTask(tasks, inp)
  {
    var taskId := Lookup(inp.fields, "taskId", Lookup(inp.fields, "id", NatToString(|tasks.entries|)));
    tasks' := tasks.Put(taskId, TaskInfo(taskId, Lookup(inp.fields, "subject", Lookup(inp.fields, "title", "")), "pending",
                                         Lookup(inp.fields, "owner", ""), Lookup(inp.fields, "description", "")));
  }

  /** The `SendMessage` / `TeamMessage` branch of the pass. */
  method ApplyMessage(teammates: Registry<TeammateInfo>, inp: ToolInput) returns (teammates': Registry<TeammateInfo>)
    requires TeammatesValid(teammates)
    ensures teammates' == MarkLive(teammates, inp)
  {
    teammates' := teammates;
    var target := Lookup(inp.fields, "to", Lookup(inp.fields, "agentId", ""));
    if target != "" && target in teammates.entries {
      teammates' := Registry(teammates.keys, teammates.entries[target := teammates.entries[target].(status := "running")]);
    }
  }

  /** The `TaskUpdate` branch of the pass. */
  method ApplyTaskUpdate(tasks: Registry<TaskInfo>, inp: ToolInput) returns (tasks': Registry<TaskInfo>)
    requires TasksValid(tasks)
    ensures tasks' == UpdateTask(tasks, inp)
  {
    var taskId := Lookup(inp.fields, "taskId", Lookup(inp.fields, "id", ""));
    if taskId in tasks.entries {
      var t := tasks.entries[taskId];
      if Lookup(inp.fields, "status", "") != "" {
        t := t.(status := inp.fields["status"]);
      }
      if Lookup(inp.fields, "owner", "") != "" {
        t := t.(owner := inp.fields["owner"]);
      }
      tasks' := tasks.Put(taskId, t);
    } else {
      tasks' := tasks.Put(taskId, TaskInfo(taskId, Lookup(inp.fields, "subject", ""), Lookup(inp.fields, "status", "unknown"),
                                           Lookup(inp.fields, "owner", ""), ""));
    }
  }

  /** The second pass: the text blocks of the assistant coordination entries. */
  method CollectLeadFragments(ms: seq<Message>, kw: string -> bool) returns (teamMsgs: seq<string>)
    requires SummaryReadable(ms, kw)
    ensures teamMsgs == LeadFragments(ms, kw)
    ensures forall i :: 0 <= i < |teamMsgs| ==> |teamMsgs[i]| <= FragmentLimit
  {
    teamMsgs := [];
    for i := 0 to |ms|
      invariant teamMsgs == LeadFragments(ms[..i], kw)
    {
      assert ms[..i + 1][..i] == ms[..i];
      var e := ms[i].entry;
      if e.kind == Str("assistant") {
        var isTeam := IsTeamMessage(e, kw);
        if isTeam && e.content.Blocks? {
          var blocks := e.content.blocks;
          assert SummarySource(ms[i].entry, kw);
          ghost var before := teamMsgs;
          for j := 0 to |blocks|
            invariant teamMsgs == before + TextFragments(blocks[..j])
          {
            assert blocks[..j + 1][..j] == blocks[..j];
            var b := blocks[j];
            if b.kind == Str("text") {
              teamMsgs := teamMsgs + [Take(TextOf(b), FragmentLimit)];
            }
          }
          assert blocks[..|blocks|] == blocks;
        }
      }
    }
    assert ms[..|ms|] == ms;
  }

  /** What one more entry adds to each quantity the first pass tracks. */
  lemma ScanAt(ms: seq<Message>, i: int, kw: string -> bool)
    requires 0 <= i < |ms|
    ensures Calls(ms[..i + 1], kw) == Calls(ms[..i], kw) + CallsOfEntry(ms[i].entry, kw)
    ensures !IsCoordination(ms[i].entry, kw) || !ms[i].entry.content.Blocks? ==>
      Calls(ms[..i + 1], kw) == Calls(ms[..i], kw)
    ensures IsCoordination(ms[i].entry, kw) ==>
      |TeamPart(ms[..i + 1], kw)| == |TeamPart(ms[..i], kw)| + 1 && LastCoordinationIndex(ms[..i + 1], kw) == ms[i].index
    ensures !IsCoordination(ms[i].entry, kw) ==>
      |TeamPart(ms[..i + 1], kw)| == |TeamPart(ms[..i], kw)|
      && LastCoordinationIndex(ms[..i + 1], kw) == LastCoordinationIndex(ms[..i], kw)
  {
    assert ms[..i + 1][..i] == ms[..i];
    PartsAt(ms, i, kw);
    assert Calls(ms[..i], kw) + [] == Calls(ms[..i], kw);
  }

  /** The block loop of the first pass over one coordination entry: each
      `tool_use` block applied in order. */
  method ApplyBlocks(teamName: string, teammates: Registry<TeammateInfo>, tasks: Registry<TaskInfo>, blocks: seq<Block>)
    returns (teamName': string, teammates': Registry<TeammateInfo>, tasks': Registry<TaskInfo>)
    requires Scan(teamName, teammates, tasks).Valid()
    ensures Scan(teamName', teammates', tasks') == Replay(Scan(teamName, teammates, tasks), CallsOfBlocks(blocks))
  {
    teamName', teammates', tasks' := teamName, teammates, tasks;
    ghost var s0 := Scan(teamName, teammates, tasks);
    for j := 0 to |blocks|
      invariant Scan(teamName', teammates', tasks') == Replay(s0, CallsOfBlocks(blocks[..j]))
    {
      assert blocks[..j + 1][..j] == blocks[..j];
      var b := blocks[j];
      ghost var done := CallsOfBlocks(blocks[..j]);
      assert CallsOfBlocks(blocks[..j + 1]) == done + CallOf(b);
      if b.Obj? && b.kind == Str("tool_use") {
        assert (done + [ToolCall(b.name, b.input)])[..|done|] == done;
        teamName', teammates', tasks' := ApplyCall(teamName', teammates', tasks', b.name, b.input);
      } else {
        assert done + [] == done;
      }
    }
    assert blocks[..|blocks|] == blocks;
  }

  /** `extract_team_state`. */
  method ExtractTeamState(ms: seq<Message>, kw: string -> bool) returns (st: TeamState)
    requires SummaryReadable(ms, kw)
    ensures st == TeamStateOf(ms, kw)
    ensures st.messageCount == |TeamPart(ms, kw)|
  {
    var teamName := "";
    var teammates: Registry<TeammateInfo> := Empty();
    var tasks: Registry<TaskInfo> := Empty();
    var messageCount := 0;
    var lastIndex := -1;

    for i := 0 to |ms|
      invariant Scan(teamName, teammates, tasks) == Replay(Start(), Calls(ms[..i], kw))
      invariant messageCount == |TeamPart(ms[..i], kw)|
      invariant lastIndex == LastCoordinationIndex(ms[..i], kw)
    {
      var e := ms[i].entry;
      ScanAt(ms, i, kw);
      var isTeam := IsTeamMessage(e, kw);
      if isTeam {
        messageCount := messageCount + 1;
        lastIndex := ms[i].index;
        if e.content.Blocks? {
          ReplayAppend(Start(), Calls(ms[..i], kw), CallsOfBlocks(e.content.blocks));
          teamName, teammates, tasks := ApplyBlocks(teamName, teammates, tasks, e.content.blocks);
        }
      }
    }
    assert ms[..|ms|] == ms;

    var teamMsgs := CollectLeadFragments(ms, kw);
    var leadSummary := "";
    if |teamMsgs| > 0 {
      leadSummary := Join(LastThree(teamMsgs), SummarySeparator);
    }
    st := TeamState(teamName, teammates.Values(), tasks.Values(), leadSummary, messageCount, lastIndex);
  }
}
