/**
 * `generate_recap`: a compact "previously on this session" view of a log.
 * Readable turns are taken from user and assistant entries, consecutive turns
 * of one speaker are merged, each user turn is paired with the reply after it,
 * and the pairs are listed with a head, a skipped middle and a tail when there
 * are too many.
 *
 * The entry type (`get_msg_type`), the text of an entry (`_extract_text`) and
 * the cleaning of user text (`_clean_user_text`, a chain of regular-expression
 * substitutions) are parameters.
 */
module Recap {
  import opened Session
  import opened Text
  import opened RecapFormat

  datatype Role = You | Claude

  datatype Turn = Turn(role: Role, text: string)

  // ---------------------------------------------------------------------------
  // Readable turns

  /** The turn an entry contributes: user and assistant entries whose cleaned
      text has at least three characters. */
  function TurnOf(e: Entry, msgType: Entry -> string, extract: Entry -> string,
                  cleanUser: string -> string): (t: Option<Turn>)
    ensures t.Some? ==> |t.value.text| >= 3
    ensures t.Some? && t.value.role == You ==> msgType(e) == "user" && t.value.text == cleanUser(extract(e))
    ensures t.Some? && t.value.role == Claude ==> msgType(e) == "assistant"
    ensures msgType(e) != "user" && msgType(e) != "assistant" ==> t.None?
  {
    if msgType(e) == "user" then
      var text := cleanUser(extract(e));
      if |text| < 3 then None else Some(Turn(You, text))
    else if msgType(e) == "assistant" then
      var text := CleanAssistantText(extract(e));
      if |text| < 3 then None else Some(Turn(Claude, text))
    else None
  }

  /** The readable turns of a log, in log order. */
  function KeptTurns(ms: seq<Message>, msgType: Entry -> string, extract: Entry -> string,
                     cleanUser: string -> string): (ts: seq<Turn>)
    ensures |ts| <= |ms|
    ensures forall i :: 0 <= i < |ts| ==> |ts[i].text| >= 3
  {
    if |ms| == 0 then []
    else
      var t := TurnOf(ms[|ms| - 1].entry, msgType, extract, cleanUser);
      KeptTurns(ms[..|ms| - 1], msgType, extract, cleanUser) + (if t.Some? then [t.value] else [])
  }

  // ---------------------------------------------------------------------------
  // Merging consecutive turns of one speaker

  /** No two neighbouring turns have the same speaker. */
  predicate Alternating(ts: seq<Turn>) {
    forall i :: 0 <= i < |ts| - 1 ==> ts[i].role != ts[i + 1].role
  }

  /** One step of the merge: a user turn after a user turn is joined to it with
      a space, an assistant turn after an assistant turn is dropped, and any
      other turn is appended. */
  function MergeStep(m: seq<Turn>, t: Turn): (r: seq<Turn>)
    ensures |r| <= |m| + 1
    ensures |r| > 0 && r[|r| - 1].role == t.role
    ensures |m| > 0 ==> |r| >= |m| && r[0].role == m[0].role
  {
    if |m| > 0 && m[|m| - 1].role == t.role then
      if t.role == Claude then m
      else
        var r := m[|m| - 1 := Turn(You, m[|m| - 1].text + " " + t.text)];
        assert r[|m| - 1].role == You == t.role;
        r
    else m + [t]
  }

  /** A merge step keeps the speakers alternating and every text at least three
      characters long. */
  lemma MergeStepKeeps(m: seq<Turn>, t: Turn)
    ensures Alternating(m) ==> Alternating(MergeStep(m, t))
    ensures (forall i :: 0 <= i < |m| ==> |m[i].text| >= 3) && |t.text| >= 3 ==>
      forall i :: 0 <= i < |MergeStep(m, t)| ==> |MergeStep(m, t)[i].text| >= 3
  {
    var r := MergeStep(m, t);
    if |m| > 0 && m[|m| - 1].role == t.role && t.role == You {
      assert forall i :: 0 <= i < |m| - 1 ==> r[i] == m[i];
    } else if !(|m| > 0 && m[|m| - 1].role == t.role) {
      assert forall i :: 0 <= i < |m| ==> r[i] == m[i];
    }
  }

  /** Consecutive user turns are joined with a space; of consecutive assistant
      turns only the first is kept. */
  function MergeTurns(ts: seq<Turn>): (m: seq<Turn>)
    ensures |m| <= |ts|
    ensures |ts| > 0 ==> |m| > 0 && m[0].role == ts[0].role && m[|m| - 1].role == ts[|ts| - 1].role
  {
    if |ts| == 0 then []
    else MergeStep(MergeTurns(ts[..|ts| - 1]), ts[|ts| - 1])
  }

  lemma MergeTurnsSnoc(ts: seq<Turn>)
    requires |ts| > 0
    ensures MergeTurns(ts) == MergeStep(MergeTurns(ts[..|ts| - 1]), ts[|ts| - 1])
  {
  }

  /** After merging no two neighbouring turns have the same speaker, and every
      text is still at least three characters long when every input text was. */
  lemma {:induction false} MergeTurnsAlternating(ts: seq<Turn>)
    ensures Alternating(MergeTurns(ts))
    ensures (forall i :: 0 <= i < |ts| ==> |ts[i].text| >= 3) ==>
      forall i :: 0 <= i < |MergeTurns(ts)| ==> |MergeTurns(ts)[i].text| >= 3
  {
    if |ts| > 0 {
      var init := ts[..|ts| - 1];
      MergeTurnsAlternating(init);
      MergeStepKeeps(MergeTurns(init), ts[|ts| - 1]);
      if forall i :: 0 <= i < |ts| ==> |ts[i].text| >= 3 {
        assert forall i :: 0 <= i < |init| ==> |init[i].text| >= 3 by {
          forall i | 0 <= i < |init| ensures |init[i].text| >= 3 {
            assert init[i] == ts[i];
          }
        }
      }
    }
  }

  function Roles(ts: seq<Turn>): (rs: seq<Role>)
    ensures |rs| == |ts|
    ensures forall i :: 0 <= i < |ts| ==> rs[i] == ts[i].role
  {
    if |ts| == 0 then [] else Roles(ts[..|ts| - 1]) + [ts[|ts| - 1].role]
  }

  /** A sequence with every run of equal neighbours cut to one element. */
  function Compress(rs: seq<Role>): seq<Role> {
    if |rs| == 0 then []
    else if |Compress(rs[..|rs| - 1])| > 0 && Last(Compress(rs[..|rs| - 1])) == rs[|rs| - 1] then
      Compress(rs[..|rs| - 1])
    else Compress(rs[..|rs| - 1]) + [rs[|rs| - 1]]
  }

  function Last(rs: seq<Role>): Role
    requires |rs| > 0
  {
    rs[|rs| - 1]
  }

  lemma CompressSnoc(rs: seq<Role>, x: Role)
    ensures |Compress(rs)| > 0 && Last(Compress(rs)) == x ==> Compress(rs + [x]) == Compress(rs)
    ensures !(|Compress(rs)| > 0 && Last(Compress(rs)) == x) ==> Compress(rs + [x]) == Compress(rs) + [x]
  {
    var ys := rs + [x];
    assert ys[..|ys| - 1] == rs;
    assert ys[|ys| - 1] == x;
  }

  /** A merge step adds the new speaker unless it is the last one already. */
  lemma MergeStepRoles(m: seq<Turn>, t: Turn)
    ensures var rs := Roles(m);
      Roles(MergeStep(m, t)) == if |rs| > 0 && rs[|rs| - 1] == t.role then rs else rs + [t.role]
  {
    MergeStepShape(m, t);
    if |m| > 0 && m[|m| - 1].role == t.role {
      if t.role == You {
        var k := |m| - 1;
        RolesSnoc(m[..k], Turn(You, m[k].text + " " + t.text));
        RolesSnoc(m[..k], m[k]);
        assert m[..k] + [m[k]] == m;
      }
    } else {
      RolesSnoc(m, t);
    }
  }

  lemma RolesSnoc(m: seq<Turn>, x: Turn)
    ensures Roles(m + [x]) == Roles(m) + [x.role]
  {
    assert (m + [x])[..|m|] == m;
  }

  /** The merged turns follow the speakers of the log with each run of one
      speaker cut to a single turn. */
  lemma {:induction false} MergeTurnsRoles(ts: seq<Turn>)
    ensures Roles(MergeTurns(ts)) == Compress(Roles(ts))
  {
    if |ts| > 0 {
      var init, t := ts[..|ts| - 1], ts[|ts| - 1];
      MergeTurnsRoles(init);
      var m := MergeTurns(init);
      MergeStepRoles(m, t);
      MergeTurnsSnoc(ts);
      CompressSnoc(Roles(init), t.role);
    }
  }

  /** The texts of one speaker's turns, in order. */
  function TextsOf(ts: seq<Turn>, role: Role): (r: seq<string>)
    ensures |r| <= |ts|
  {
    if |ts| == 0 then []
    else if ts[|ts| - 1].role == role then TextsOf(ts[..|ts| - 1], role) + [ts[|ts| - 1].text]
    else TextsOf(ts[..|ts| - 1], role)
  }

  /** The texts of the assistant turns that open a run of assistant turns. */
  function RunOpeners(ts: seq<Turn>): seq<string> {
    if |ts| == 0 then []
    else
      var n := |ts|;
      if ts[n - 1].role == Claude && (n == 1 || ts[n - 2].role != Claude) then RunOpeners(ts[..n - 1]) + [ts[n - 1].text]
      else RunOpeners(ts[..n - 1])
  }

  lemma RunOpenersStep(ts: seq<Turn>)
    requires |ts| > 0
    ensures var n := |ts|;
      RunOpeners(ts) == if ts[n - 1].role == Claude && (n == 1 || ts[n - 2].role != Claude)
                        then RunOpeners(ts[..n - 1]) + [ts[n - 1].text] else RunOpeners(ts[..n - 1])
  {
  }

  lemma TextsOfSnoc(m: seq<Turn>, x: Turn, role: Role)
    ensures x.role == role ==> TextsOf(m + [x], role) == TextsOf(m, role) + [x.text]
    ensures x.role != role ==> TextsOf(m + [x], role) == TextsOf(m, role)
  {
    assert (m + [x])[..|m|] == m;
  }

  /** The three outcomes of a merge step, as a list with one last element. */
  lemma MergeStepShape(m: seq<Turn>, t: Turn)
    ensures |m| > 0 && m[|m| - 1].role == t.role == You ==>
      MergeStep(m, t) == m[..|m| - 1] + [Turn(You, m[|m| - 1].text + " " + t.text)]
    ensures |m| > 0 && m[|m| - 1].role == t.role == Claude ==> MergeStep(m, t) == m
    ensures !(|m| > 0 && m[|m| - 1].role == t.role) ==> MergeStep(m, t) == m + [t]
  {
    if |m| > 0 && m[|m| - 1].role == t.role == You {
      var r := MergeStep(m, t);
      assert forall i :: 0 <= i < |m| - 1 ==> r[i] == m[i];
    }
  }

  /** A merge step adds an assistant text only when it opens a run. */
  lemma MergeStepOpeners(m: seq<Turn>, t: Turn)
    ensures t.role == You ==> TextsOf(MergeStep(m, t), Claude) == TextsOf(m, Claude)
    ensures |m| > 0 && m[|m| - 1].role == Claude ==> TextsOf(MergeStep(m, t), Claude) == TextsOf(m, Claude)
    ensures t.role == Claude && !(|m| > 0 && m[|m| - 1].role == Claude) ==>
      TextsOf(MergeStep(m, t), Claude) == TextsOf(m, Claude) + [t.text]
  {
    MergeStepShape(m, t);
    if |m| > 0 && m[|m| - 1].role == t.role == You {
      var init := m[..|m| - 1];
      TextsOfSnoc(init, Turn(You, m[|m| - 1].text + " " + t.text), Claude);
    } else if !(|m| > 0 && m[|m| - 1].role == t.role) {
      TextsOfSnoc(m, t, Claude);
    }
  }

  /** A merge step extends the user texts by the new one: joined onto the last
      with a space when the user spoke last, as a text of its own otherwise. */
  lemma MergeStepUserTexts(m: seq<Turn>, t: Turn)
    ensures var us, us' := TextsOf(m, You), TextsOf(MergeStep(m, t), You);
      && (|us'| == 0 <==> |us| == 0 && t.role != You)
      && (t.role != You ==> us' == us)
      && (t.role == You && |us| > 0 ==> Join(us', " ") == Join(us, " ") + " " + t.text)
      && (t.role == You && |us| == 0 ==> Join(us', " ") == t.text)
  {
    if |m| > 0 && m[|m| - 1].role == t.role {
      if t.role == You {
        var n := |m|;
        var init := m[..n - 1];
        assert m == init + [m[n - 1]];
        TextsOfSnoc(init, m[n - 1], You);
        var joined := Turn(You, m[n - 1].text + " " + t.text);
        MergeStepShape(m, t);
        TextsOfSnoc(init, joined, You);
        var us := TextsOf(m, You);
        assert us[..|us| - 1] == TextsOf(init, You);
        JoinExtendLast(us, " ", t.text);
      }
    } else {
      MergeStepShape(m, t);
      TextsOfSnoc(m, t, You);
      if t.role == You && |TextsOf(m, You)| > 0 {
        JoinSnoc(TextsOf(m, You), " ", t.text);
      }
    }
  }

  /** The assistant turns that survive the merge are exactly the first turn of
      each assistant run. */
  lemma {:induction false} MergeTurnsOpeners(ts: seq<Turn>)
    ensures TextsOf(MergeTurns(ts), Claude) == RunOpeners(ts)
  {
    if |ts| > 0 {
      var n := |ts|;
      var init, t := ts[..n - 1], ts[n - 1];
      MergeTurnsOpeners(init);
      var m := MergeTurns(init);
      MergeTurnsSnoc(ts);
      MergeStepOpeners(m, t);
      if n > 1 {
        assert m[|m| - 1].role == ts[n - 2].role;
      }
      RunOpenersStep(ts);
    }
  }

  /** The user texts, joined with single spaces, are unchanged by the merge: a run
      of user turns becomes one turn whose text is the run's texts joined by
      spaces. */
  lemma {:induction false} MergeTurnsUserTexts(ts: seq<Turn>)
    ensures |TextsOf(MergeTurns(ts), You)| == 0 <==> |TextsOf(ts, You)| == 0
    ensures Join(TextsOf(MergeTurns(ts), You), " ") == Join(TextsOf(ts, You), " ")
  {
    if |ts| > 0 {
      var init, t := ts[..|ts| - 1], ts[|ts| - 1];
      MergeTurnsUserTexts(init);
      var m := MergeTurns(init);
      MergeTurnsSnoc(ts);
      MergeStepUserTexts(m, t);
      var us, um := TextsOf(init, You), TextsOf(m, You);
      if t.role == You {
        assert TextsOf(ts, You) == us + [t.text];
        if |us| > 0 {
          assert |um| > 0;
          JoinSnoc(us, " ", t.text);
        } else {
          assert |um| == 0;
          assert us + [t.text] == [t.text];
        }
      } else {
        assert TextsOf(ts, You) == us;
      }
    }
  }

  // ---------------------------------------------------------------------------
  // Pairing

  /** Each user turn with the assistant turn after it, if any; an assistant turn
      without a user turn before it is a pair with an empty user side. */
  function PairTurns(m: seq<Turn>): (ps: seq<Pair>)
    ensures |ps| <= |m|
    ensures 2 * |ps| >= |m|
    decreases |m|
  {
    if |m| == 0 then []
    else if m[0].role == You then
      if |m| >= 2 && m[1].role == Claude then [Pair(m[0].text, m[1].text)] + PairTurns(m[2..])
      else [Pair(m[0].text, "")] + PairTurns(m[1..])
    else [Pair("", m[0].text)] + PairTurns(m[1..])
  }

  /** The turns a pair stands for. */
  function UnpairOne(p: Pair): seq<Turn> {
    if p.user != "" then [Turn(You, p.user)] + (if p.assistant != "" then [Turn(Claude, p.assistant)] else [])
    else [Turn(Claude, p.assistant)]
  }

  function Unpair(ps: seq<Pair>): seq<Turn> {
    if |ps| == 0 then [] else UnpairOne(ps[0]) + Unpair(ps[1..])
  }

  /** Pairing loses no turn: when every text is non-empty, the turns can be read
      back from the pairs. */
  lemma {:induction false} PairTurnsRoundTrip(m: seq<Turn>)
    requires forall i :: 0 <= i < |m| ==> m[i].text != ""
    ensures Unpair(PairTurns(m)) == m
    decreases |m|
  {
    if |m| > 0 {
      var ps := PairTurns(m);
      assert ps[1..] == PairTurns(m[if m[0].role == You && |m| >= 2 && m[1].role == Claude then 2 else 1..]);
      if m[0].role == You && |m| >= 2 && m[1].role == Claude {
        PairTurnsRoundTrip(m[2..]);
        SplitFront(m, 2);
      } else {
        PairTurnsRoundTrip(m[1..]);
        SplitFront(m, 1);
      }
    }
  }

  /** A sequence is its first one or two elements followed by the rest. */
  lemma SplitFront<T>(m: seq<T>, k: nat)
    requires 1 <= k <= 2 && k <= |m|
    ensures k == 1 ==> m == [m[0]] + m[1..]
    ensures k == 2 ==> m == [m[0], m[1]] + m[2..]
  {
  }

  /** Alternating turns that open with the user pair up with a user side everywhere. */
  lemma {:induction false} UserLedPairs(m: seq<Turn>)
    requires Alternating(m) && (forall i :: 0 <= i < |m| ==> m[i].text != "")
    requires |m| > 0 ==> m[0].role == You
    ensures forall i :: 0 <= i < |PairTurns(m)| ==> PairTurns(m)[i].user != ""
    decreases |m|
  {
    if |m| > 0 {
      if |m| >= 2 && m[1].role == Claude {
        UserLedPairs(m[2..]);
      } else {
        assert |m| == 1;
      }
    }
  }

  /** With alternating speakers an assistant turn without a user turn before it
      can only open the log: every pair after the first has a user side. */
  lemma OrphanOnlyFirst(m: seq<Turn>)
    requires Alternating(m) && (forall i :: 0 <= i < |m| ==> m[i].text != "")
    ensures forall i :: 1 <= i < |PairTurns(m)| ==> PairTurns(m)[i].user != ""
  {
    if |m| > 0 {
      if m[0].role == You {
        UserLedPairs(m);
      } else {
        UserLedPairs(m[1..]);
        assert PairTurns(m) == [Pair("", m[0].text)] + PairTurns(m[1..]);
      }
    }
  }

  // ---------------------------------------------------------------------------
  // The window of listed pairs

  /** One line of the recap body: a numbered pair, or the count of pairs left out. */
  datatype RecapLine = Numbered(num: int, p: Pair) | Skipped(count: nat)

  /** The pairs of `ps` numbered from `start`. */
  function Numbering(ps: seq<Pair>, start: int): (lines: seq<RecapLine>)
    ensures |lines| == |ps|
    ensures forall i :: 0 <= i < |ps| ==> lines[i] == Numbered(start + i, ps[i])
  {
    seq(|ps|, i requires 0 <= i < |ps| => Numbered(start + i, ps[i]))
  }

  /** The pairs at positions `from` to `until - 1`, each under its position counted
      from one. */
  function Listed(ps: seq<Pair>, from: nat, until: nat): (lines: seq<RecapLine>)
    requires from <= until <= |ps|
    ensures |lines| == until - from
    ensures forall i :: 0 <= i < until - from ==> lines[i] == Numbered(from + i + 1, ps[from + i])
  {
    seq(until - from, i requires 0 <= i < until - from => Numbered(from + i + 1, ps[from + i]))
  }

  /** Python's `s[start:]` for any integer `start`. */
  function SliceFrom(ps: seq<Pair>, start: int): (r: seq<Pair>)
    ensures |r| <= |ps| && r == ps[|ps| - |r|..]
  {
    var b := if start < 0 then (if |ps| + start < 0 then 0 else |ps| + start)
             else if start > |ps| then |ps| else start;
    ps[b..]
  }

  /** The window as `generate_recap` computes it: the first four pairs, a skip
      line, and `paired[-tail_count:]` numbered from `len(paired) - tail_count + 1`,
      where `tail_count = max_turns - 5`. */
  function WindowAsWritten(ps: seq<Pair>, maxTurns: int): (lines: seq<RecapLine>)
  {
    var n := |ps|;
    if n <= maxTurns then Numbering(ps, 1)
    else
      var tailCount := maxTurns - 4 - 1;
      Numbering(ps[..if n < 4 then n else 4], 1)
      + [Skipped(n - 4 - tailCount)]
      + Numbering(SliceFrom(ps, -tailCount), n - tailCount + 1)
  }

  /** The number of pairs a window accounts for: one per listed pair plus the
      count of every skip line. */
  function Accounted(lines: seq<RecapLine>): int {
    if |lines| == 0 then 0
    else Accounted(lines[..|lines| - 1]) + (match lines[|lines| - 1] case Numbered(_, _) => 1 case Skipped(c) => c)
  }

  lemma {:induction false} AccountedAppend(a: seq<RecapLine>, b: seq<RecapLine>)
    ensures Accounted(a + b) == Accounted(a) + Accounted(b)
    decreases |b|
  {
    if |b| == 0 {
      assert a + b == a;
    } else {
      AccountedAppend(a, b[..|b| - 1]);
      assert (a + b)[..|a + b| - 1] == a + b[..|b| - 1];
    }
  }

  lemma {:induction false} AccountedNumbering(ps: seq<Pair>, start: int)
    ensures Accounted(Numbering(ps, start)) == |ps|
  {
    if |ps| > 0 {
      var init := ps[..|ps| - 1];
      AccountedNumbering(init, start);
      assert Numbering(ps, start)[..|ps| - 1] == Numbering(init, start);
    }
  }

  lemma {:induction false} AccountedListed(ps: seq<Pair>, from: nat, until: nat)
    requires from <= until <= |ps|
    ensures Accounted(Listed(ps, from, until)) == until - from
    decreases until
  {
    if from < until {
      AccountedListed(ps, from, until - 1);
      assert Listed(ps, from, until)[..until - 1 - from] == Listed(ps, from, until - 1);
    }
  }

  /** With `max_turns = 5` and six pairs the tail slice is `paired[-0:]`, the whole
      list: all six pairs are listed again under the numbers 7 to 12, after the
      first four and a skip line of 2, so the recap accounts for twelve pairs. */
  lemma WindowAsWrittenRepeats(ps: seq<Pair>)
    requires |ps| == 6
    ensures var lines := WindowAsWritten(ps, 5);
      && Numbered(1, ps[0]) in lines && Numbered(7, ps[0]) in lines
      && Numbered(12, ps[5]) in lines
      && Accounted(lines) == 12
  {
    var lines := WindowAsWritten(ps, 5);
    var head, tail := Numbering(ps[..4], 1), Numbering(ps, 7);
    assert SliceFrom(ps, 0) == ps;
    assert lines == head + [Skipped(2)] + tail;
    assert lines[0] == Numbered(1, ps[0]);
    assert lines[5] == Numbered(7, ps[0]);
    assert lines[10] == Numbered(12, ps[5]);
    AccountedAppend(head + [Skipped(2)], tail);
    AccountedAppend(head, [Skipped(2)]);
    AccountedNumbering(ps[..4], 1);
    AccountedNumbering(ps, 7);
    assert Accounted([Skipped(2)]) == Accounted([]) + 2;
  }

  /** `len(paired[:4])`: the number of pairs listed before the skip line. */
  function HeadCount(n: nat): (h: nat)
    ensures h <= n && h <= 4
  {
    if n < 4 then n else 4
  }

  /** The number of pairs listed after the skip line. */
  function TailCount(n: nat, maxTurns: int): (t: nat)
    requires n > maxTurns
    ensures t + HeadCount(n) <= n
  {
    if maxTurns - 5 > 0 then maxTurns - 5 else 0
  }

  /** The window as intended: the first four pairs, a skip line for the middle,
      and the last `max_turns - 5` pairs (none when that is not positive),
      each numbered by its position in the list. */
  function Window(ps: seq<Pair>, maxTurns: int): (lines: seq<RecapLine>) {
    var n := |ps|;
    if n <= maxTurns then Listed(ps, 0, n)
    else
      var h := HeadCount(n);
      var t := TailCount(n, maxTurns);
      Listed(ps, 0, h) + [Skipped(n - h - t)] + Listed(ps, n - t, n)
  }

  /** Every listed pair sits under its own position in the list. */
  ghost predicate Faithful(lines: seq<RecapLine>, ps: seq<Pair>) {
    forall i :: 0 <= i < |lines| && lines[i].Numbered? ==>
      1 <= lines[i].num <= |ps| && lines[i].p == ps[lines[i].num - 1]
  }

  /** Numbers strictly increase down the list. */
  ghost predicate Increasing(lines: seq<RecapLine>) {
    forall i, j :: 0 <= i < j < |lines| && lines[i].Numbered? && lines[j].Numbered? ==>
      lines[i].num < lines[j].num
  }

  /** Positions in `a + [x] + b`. */
  lemma ConcatAround<T>(a: seq<T>, x: T, b: seq<T>)
    ensures var s := a + [x] + b;
      && |s| == |a| + 1 + |b|
      && (forall i :: 0 <= i < |a| ==> s[i] == a[i])
      && s[|a|] == x
      && (forall i :: |a| < i < |s| ==> s[i] == b[i - |a| - 1])
  {
  }

  /** The head, the skip line and the tail of a list that does not fit. */
  lemma WindowCut(ps: seq<Pair>, maxTurns: int)
    requires |ps| > maxTurns
    ensures var n, lines := |ps|, Window(ps, maxTurns);
      var h, t := HeadCount(n), TailCount(n, maxTurns);
      && |lines| == h + 1 + t
      && (forall i :: 0 <= i < h ==> lines[i] == Numbered(i + 1, ps[i]))
      && lines[h] == Skipped(n - h - t) && n - h - t >= 0
      && (forall i :: h < i < |lines| ==> lines[i] == Numbered(n - t + i - h, ps[n - t + i - h - 1]))
  {
    var n := |ps|;
    var h, t := HeadCount(n), TailCount(n, maxTurns);
    ConcatAround(Listed(ps, 0, h), Skipped(n - h - t), Listed(ps, n - t, n));
  }

  /** One line of a list that does not fit: its number and its pair. */
  lemma WindowAt(ps: seq<Pair>, maxTurns: int, i: int)
    requires |ps| > maxTurns && 0 <= i < |Window(ps, maxTurns)|
    requires Window(ps, maxTurns)[i].Numbered?
    ensures var n, l := |ps|, Window(ps, maxTurns)[i];
      var h, t := HeadCount(n), TailCount(n, maxTurns);
      && l.num == (if i < h then i + 1 else n - t + i - h)
      && 1 <= l.num <= n && l.p == ps[l.num - 1]
      && (i > h ==> l.num > h)
  {
    WindowCut(ps, maxTurns);
  }

  /** Every pair is listed or counted in the skip line, exactly once. */
  lemma WindowAccounts(ps: seq<Pair>, maxTurns: int)
    ensures Accounted(Window(ps, maxTurns)) == |ps|
  {
    var n := |ps|;
    if n <= maxTurns {
      AccountedListed(ps, 0, n);
    } else {
      var h, t := HeadCount(n), TailCount(n, maxTurns);
      var head, tail := Listed(ps, 0, h), Listed(ps, n - t, n);
      AccountedAppend(head + [Skipped(n - h - t)], tail);
      AccountedAppend(head, [Skipped(n - h - t)]);
      AccountedListed(ps, 0, h);
      AccountedListed(ps, n - t, n);
      assert Accounted([Skipped(n - h - t)]) == Accounted([]) + (n - h - t);
    }
  }

  /** Each listed pair sits under its own number. */
  lemma WindowFaithful(ps: seq<Pair>, maxTurns: int)
    ensures Faithful(Window(ps, maxTurns), ps)
  {
    var lines := Window(ps, maxTurns);
    forall i | 0 <= i < |lines| && lines[i].Numbered?
      ensures 1 <= lines[i].num <= |ps| && lines[i].p == ps[lines[i].num - 1]
    {
      if |ps| > maxTurns {
        WindowAt(ps, maxTurns, i);
      }
    }
  }

  /** The numbers go up, so no pair is listed twice. */
  lemma WindowIncreasing(ps: seq<Pair>, maxTurns: int)
    ensures Increasing(Window(ps, maxTurns))
  {
    var lines := Window(ps, maxTurns);
    forall i, j | 0 <= i < j < |lines| && lines[i].Numbered? && lines[j].Numbered?
      ensures lines[i].num < lines[j].num
    {
      if |ps| > maxTurns {
        WindowAt(ps, maxTurns, i);
        WindowAt(ps, maxTurns, j);
      }
    }
  }

  /** What the window promises: each pair is listed under its own number, at most
      once and in order, every pair is either listed or counted as skipped, a list
      that fits is shown whole, and one that does not is cut once, keeping at most
      `max(max_turns, 5)` lines. */
  lemma WindowCorrect(ps: seq<Pair>, maxTurns: int)
    ensures var lines := Window(ps, maxTurns);
      && Faithful(lines, ps)
      && Increasing(lines)
      && Accounted(lines) == |ps|
      && (|ps| <= maxTurns ==> lines == Listed(ps, 0, |ps|))
      && (|ps| > maxTurns ==> |lines| <= (if maxTurns > 5 then maxTurns else 5))
  {
    WindowFaithful(ps, maxTurns);
    WindowIncreasing(ps, maxTurns);
    WindowAccounts(ps, maxTurns);
    if |ps| > maxTurns {
      WindowCut(ps, maxTurns);
    }
  }

  /** Numbering a slice from one past its start lists its pairs by position. */
  lemma NumberingSlice(ps: seq<Pair>, from: nat, until: nat)
    requires from <= until <= |ps|
    ensures Numbering(ps[from..until], from + 1) == Listed(ps, from, until)
  {
    var a, b := Numbering(ps[from..until], from + 1), Listed(ps, from, until);
    forall i | 0 <= i < until - from ensures a[i] == b[i] {
      assert ps[from..until][i] == ps[from + i];
    }
  }

  /** From six turns on, the window as written is the intended one. */
  lemma WindowsAgree(ps: seq<Pair>, maxTurns: int)
    requires maxTurns >= 6
    ensures WindowAsWritten(ps, maxTurns) == Window(ps, maxTurns)
  {
    var n := |ps|;
    if n <= maxTurns {
      NumberingSlice(ps, 0, n);
      assert ps[0..n] == ps;
    } else {
      WindowsAgreeCut(ps, maxTurns);
    }
  }

  lemma WindowsAgreeCut(ps: seq<Pair>, maxTurns: int)
    requires maxTurns >= 6 && |ps| > maxTurns
    ensures WindowAsWritten(ps, maxTurns) == Window(ps, maxTurns)
  {
    var n, t := |ps|, maxTurns - 5;
    assert HeadCount(n) == 4 && TailCount(n, maxTurns) == t;
    var head, tail := Numbering(ps[..4], 1), Numbering(SliceFrom(ps, -t), n - t + 1);
    assert WindowAsWritten(ps, maxTurns) == head + [Skipped(n - 4 - t)] + tail;
    HeadAgrees(ps);
    TailAgrees(ps, t);
    assert Window(ps, maxTurns) == Listed(ps, 0, 4) + [Skipped(n - 4 - t)] + Listed(ps, n - t, n);
  }

  /** `enumerate(paired[:4], 1)` lists the first four pairs by position. */
  lemma HeadAgrees(ps: seq<Pair>)
    requires |ps| >= 4
    ensures Numbering(ps[..4], 1) == Listed(ps, 0, 4)
  {
    NumberingSlice(ps, 0, 4);
    assert ps[0..4] == ps[..4];
  }

  /** `enumerate(paired[-t:], n - t + 1)` lists the last `t` pairs by position. */
  lemma TailAgrees(ps: seq<Pair>, t: int)
    requires 1 <= t <= |ps|
    ensures Numbering(SliceFrom(ps, -t), |ps| - t + 1) == Listed(ps, |ps| - t, |ps|)
  {
    var n := |ps|;
    NumberingSlice(ps, n - t, n);
    assert SliceFrom(ps, -t) == ps[n - t..n];
  }

  // ---------------------------------------------------------------------------
  // The text

  function SkipLine(count: nat): string {
    "\n        ... " + NatToString(count) + " exchanges skipped ...\n"
  }

  function RenderLine(l: RecapLine): string {
    match l
    case Numbered(num, p) => FmtPair(num, p)
    case Skipped(c) => SkipLine(c)
  }

  function RenderAll(lines: seq<RecapLine>): (r: seq<string>)
    ensures |r| == |lines|
    ensures forall i :: 0 <= i < |lines| ==> r[i] == RenderLine(lines[i])
  {
    seq(|lines|, i requires 0 <= i < |lines| => RenderLine(lines[i]))
  }

  function Bar(c: char, n: nat): (r: string)
    ensures |r| == n && forall i :: 0 <= i < n ==> r[i] == c
  {
    seq(n, _ => c)
  }

  const Header: seq<string> := [
    "",
    "  ╔" + Bar('═', 70) + "╗",
    "  ║                    PREVIOUSLY ON THIS SESSION                       ║",
    "  ╚" + Bar('═', 70) + "╝",
    ""
  ]

  const Footer: seq<string> := [
    "",
    "  ── context cleaned by cozempic ── full history preserved ──",
    ""
  ]

  /** The recap of a log: empty when no turn is readable, else the header, the
      window of pairs and the footer, one per line. */
  function RecapText(ms: seq<Message>, maxTurns: int, msgType: Entry -> string, extract: Entry -> string,
                     cleanUser: string -> string): (r: string)
    ensures r == "" <==> |KeptTurns(ms, msgType, extract, cleanUser)| == 0
  {
    var ts := KeptTurns(ms, msgType, extract, cleanUser);
    if |ts| == 0 then ""
    else Join(Header + RenderAll(Window(PairTurns(MergeTurns(ts)), maxTurns)) + Footer, "\n")
  }

  /** The recap as the source writes it, with the window of `WindowAsWritten`. */
  function RecapTextAsWritten(ms: seq<Message>, maxTurns: int, msgType: Entry -> string, extract: Entry -> string,
                              cleanUser: string -> string): (r: string)
    ensures r == "" <==> |KeptTurns(ms, msgType, extract, cleanUser)| == 0
  {
    var ts := KeptTurns(ms, msgType, extract, cleanUser);
    if |ts| == 0 then ""
    else Join(Header + RenderAll(WindowAsWritten(PairTurns(MergeTurns(ts)), maxTurns)) + Footer, "\n")
  }

  /** From `max_turns = 6` up (the default in `generate_recap` and `save_recap` is 40) the recap with the corrected
      window is the source's recap, character for character. */
  lemma RecapTextMatchesSource(ms: seq<Message>, maxTurns: int, msgType: Entry -> string, extract: Entry -> string,
                               cleanUser: string -> string)
    requires maxTurns >= 6
    ensures RecapText(ms, maxTurns, msgType, extract, cleanUser) == RecapTextAsWritten(ms, maxTurns, msgType, extract, cleanUser)
  {
    var ts := KeptTurns(ms, msgType, extract, cleanUser);
    if |ts| > 0 {
      WindowsAgree(PairTurns(MergeTurns(ts)), maxTurns);
    }
  }

  /** `generate_recap`, loop by loop. */
  method GenerateRecap(ms: seq<Message>, maxTurns: int, msgType: Entry -> string, extract: Entry -> string,
                       cleanUser: string -> string) returns (r: string)
    ensures r == RecapText(ms, maxTurns, msgType, extract, cleanUser)
    ensures maxTurns >= 6 ==> r == RecapTextAsWritten(ms, maxTurns, msgType, extract, cleanUser)
  {
    if maxTurns >= 6 {
      RecapTextMatchesSource(ms, maxTurns, msgType, extract, cleanUser);
    }
    var turns := CollectTurns(ms, msgType, extract, cleanUser);
    if |turns| == 0 {
      return "";
    }
    var merged := MergeRuns(turns);
    var paired := PairUp(merged);
    var body := RenderWindow(paired, maxTurns);
    var lines := Header + body + Footer;
    r := Join(lines, "\n");
  }

  /** The first loop of `generate_recap`: the readable turns. */
  method CollectTurns(ms: seq<Message>, msgType: Entry -> string, extract: Entry -> string,
                      cleanUser: string -> string) returns (turns: seq<Turn>)
    ensures turns == KeptTurns(ms, msgType, extract, cleanUser)
  {
    turns := [];
    for i := 0 to |ms|
      invariant turns == KeptTurns(ms[..i], msgType, extract, cleanUser)
    {
      assert ms[..i + 1][..i] == ms[..i];
      var e := ms[i].entry;
      if msgType(e) == "user" {
        var text := cleanUser(extract(e));
        if |text| >= 3 {
          turns := turns + [Turn(You, text)];
        }
      } else if msgType(e) == "assistant" {
        var text := CleanAssistantText(extract(e));
        if |text| >= 3 {
          turns := turns + [Turn(Claude, text)];
        }
      }
    }
    assert ms[..|ms|] == ms;
  }

  lemma MergeTurnsPrefix(ts: seq<Turn>, i: int)
    requires 0 <= i < |ts|
    ensures MergeTurns(ts[..i + 1]) == MergeStep(MergeTurns(ts[..i]), ts[i])
  {
    assert ts[..i + 1][..i] == ts[..i];
  }

  /** The merge loop, which rewrites `merged[-1]` in place. */
  method MergeRuns(turns: seq<Turn>) returns (merged: seq<Turn>)
    ensures merged == MergeTurns(turns)
  {
    merged := [];
    for i := 0 to |turns|
      invariant merged == MergeTurns(turns[..i])
    {
      MergeTurnsPrefix(turns, i);
      var t := turns[i];
      ghost var before := merged;
      if |merged| > 0 && merged[|merged| - 1].role == t.role {
        if t.role == You {
          merged := merged[|merged| - 1 := Turn(You, merged[|merged| - 1].text + " " + t.text)];
        }
      } else {
        merged := merged + [t];
      }
      assert merged == MergeStep(before, t);
    }
    assert turns[..|turns|] == turns;
  }

  /** One turn of the pairing loop, seen from position `i`. */
  lemma PairTurnsAt(m: seq<Turn>, i: int)
    requires 0 <= i < |m|
    ensures m[i].role == You && i + 1 < |m| && m[i + 1].role == Claude ==>
      PairTurns(m[i..]) == [Pair(m[i].text, m[i + 1].text)] + PairTurns(m[i + 2..])
    ensures m[i].role == You && !(i + 1 < |m| && m[i + 1].role == Claude) ==>
      PairTurns(m[i..]) == [Pair(m[i].text, "")] + PairTurns(m[i + 1..])
    ensures m[i].role == Claude ==> PairTurns(m[i..]) == [Pair("", m[i].text)] + PairTurns(m[i + 1..])
  {
    var rest := m[i..];
    assert rest[1..] == m[i + 1..];
    if i + 1 < |m| {
      assert rest[2..] == m[i + 2..];
    }
  }

  /** The pairing loop. */
  method PairUp(merged: seq<Turn>) returns (paired: seq<Pair>)
    ensures paired == PairTurns(merged)
  {
    paired := [];
    var i := 0;
    while i < |merged|
      invariant 0 <= i <= |merged|
      invariant paired + PairTurns(merged[i..]) == PairTurns(merged)
      decreases |merged| - i
    {
      PairTurnsAt(merged, i);
      ghost var before, from := paired, i;
      var text := merged[i].text;
      if merged[i].role == You {
        var response := "";
        if i + 1 < |merged| && merged[i + 1].role == Claude {
          response := merged[i + 1].text;
          i := i + 2;
        } else {
          i := i + 1;
        }
        paired := paired + [Pair(text, response)];
      } else {
        paired := paired + [Pair("", text)];
        i := i + 1;
      }
      SnocStep(before, paired[|paired| - 1], PairTurns(merged[from..]), PairTurns(merged[i..]), PairTurns(merged));
    }
  }

  /** Moving one element from the front of the rest to the end of the done part. */
  lemma SnocStep<T>(done: seq<T>, x: T, rest: seq<T>, rest': seq<T>, all: seq<T>)
    requires done + rest == all && rest == [x] + rest'
    ensures (done + [x]) + rest' == all
  {
  }

  lemma RenderAllAppend(a: seq<RecapLine>, b: seq<RecapLine>)
    ensures RenderAll(a + b) == RenderAll(a) + RenderAll(b)
  {
    var r := RenderAll(a + b);
    assert forall i :: 0 <= i < |a| ==> r[i] == RenderLine(a[i]);
    assert forall i :: |a| <= i < |a| + |b| ==> r[i] == RenderLine(b[i - |a|]);
  }

  /** The rendered lines of a list that does not fit, part by part. */
  lemma RenderWindowCut(ps: seq<Pair>, maxTurns: int)
    requires |ps| > maxTurns
    ensures var n := |ps|;
      var h, t := HeadCount(n), TailCount(n, maxTurns);
      RenderAll(Window(ps, maxTurns))
        == RenderAll(Listed(ps, 0, h)) + [SkipLine(n - h - t)] + RenderAll(Listed(ps, n - t, n))
  {
    var n := |ps|;
    var h, t := HeadCount(n), TailCount(n, maxTurns);
    var head, tail := Listed(ps, 0, h), Listed(ps, n - t, n);
    var skip := [Skipped(n - h - t)];
    assert Window(ps, maxTurns) == head + skip + tail;
    RenderAllAppend(head, skip);
    RenderAllAppend(head + skip, tail);
    assert RenderAll(skip) == [SkipLine(n - h - t)];
  }

  /** The formatting of the window: all pairs, or head, skip line and tail. */
  method RenderWindow(paired: seq<Pair>, maxTurns: int) returns (lines: seq<string>)
    ensures lines == RenderAll(Window(paired, maxTurns))
    ensures maxTurns >= 6 ==> lines == RenderAll(WindowAsWritten(paired, maxTurns))
  {
    if maxTurns >= 6 {
      WindowsAgree(paired, maxTurns);
    }
    var n := |paired|;
    if n <= maxTurns {
      lines := AppendListed([], paired, 0, n);
      assert lines == RenderAll(Listed(paired, 0, n));
    } else {
      lines := RenderCut(paired, maxTurns);
    }
  }

  /** The head, the skip line and the tail of a list that does not fit. */
  method RenderCut(paired: seq<Pair>, maxTurns: int) returns (lines: seq<string>)
    requires |paired| > maxTurns
    ensures lines == RenderAll(Window(paired, maxTurns))
    ensures maxTurns >= 6 ==> lines == RenderAll(WindowAsWritten(paired, maxTurns))
  {
    if maxTurns >= 6 {
      WindowsAgree(paired, maxTurns);
    }
    var n := |paired|;
    var h := HeadCount(n);
    var t := TailCount(n, maxTurns);
    var head := AppendListed([], paired, 0, h);
    assert head == RenderAll(Listed(paired, 0, h));
    lines := AppendListed(head + [SkipLine(n - h - t)], paired, n - t, n);
    RenderWindowCut(paired, maxTurns);
  }

  lemma ListedSnoc(ps: seq<Pair>, from: nat, k: nat)
    requires from <= k < |ps|
    ensures RenderAll(Listed(ps, from, k + 1)) == RenderAll(Listed(ps, from, k)) + [FmtPair(k + 1, ps[k])]
  {
    var a, b := Listed(ps, from, k + 1), Listed(ps, from, k);
    assert a == b + [Numbered(k + 1, ps[k])];
    var ra, rb := RenderAll(a), RenderAll(b);
    assert forall i :: 0 <= i < k - from ==> ra[i] == rb[i];
  }

  /** `for idx, (u, a) in enumerate(...): lines.append(_fmt_pair(idx, u, a))` over
      the pairs at positions `from` to `until - 1`. */
  method AppendListed(lines: seq<string>, ps: seq<Pair>, from: nat, until: nat) returns (out: seq<string>)
    requires from <= until <= |ps|
    ensures out == lines + RenderAll(Listed(ps, from, until))
  {
    out := lines;
    for k := from to until
      invariant out == lines + RenderAll(Listed(ps, from, k))
    {
      ListedSnoc(ps, from, k);
      out := out + [FmtPair(k + 1, ps[k])];
    }
  }
}
