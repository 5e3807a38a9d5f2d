/** The replicated ledger of commit decisions (internal/consensus/commit_fsm.go)
    and the coordinator's wait for a decision (internal/coordinator/raft.go). Raft
    enters as one agreed log of commands; a replica has applied a prefix of it. */
module CommitFsm {
  import opened Util
  import opened Tasks

  datatype Command = Command(task: TaskId, job: JobId, generation: int, finalKey: string)

  type Ledger = map<TaskId, Command>

  /** A command not newer than the record held for its task is ignored. */
  function Apply(l: Ledger, c: Command): Ledger {
    if c.task in l && c.generation <= l[c.task].generation then l else l[c.task := c]
  }

  function Replay(log: seq<Command>): Ledger {
    if log == [] then map[] else Apply(Replay(log[..|log| - 1]), log[|log| - 1])
  }

  class Fsm {
    var committed: Ledger

    constructor ()
      ensures committed == map[]
    {
      committed := map[];
    }

    /** Applies one log entry; `cmd` is None for an entry that does not decode. */
    method ApplyEntry(cmd: Option<Command>) returns (ok: bool)
      modifies this
      ensures ok == cmd.Some?
      ensures committed == if cmd.Some? then Apply(old(committed), cmd.value) else old(committed)
    {
      if cmd.None? { return false; }
      var c := cmd.value;
      if c.task in committed && c.generation <= committed[c.task].generation { return true; }
      committed := committed[c.task := c];
      return true;
    }

    /** A replica that applies a log in order holds its replay. */
    method ApplyLog(log: seq<Command>)
      requires committed == map[]
      modifies this
      ensures committed == Replay(log)
    {
      for k := 0 to |log|
        invariant committed == Replay(log[..k])
      {
        assert log[..k + 1][..k] == log[..k];
        var _ := ApplyEntry(Some(log[k]));
      }
      assert log[..|log|] == log;
    }
  }

  /******* Which command wins *******/

  /** log[i] is the earliest command of the greatest generation for its task. */
  ghost predicate Wins(log: seq<Command>, i: nat, t: TaskId) {
    && i < |log| && log[i].task == t
    && (forall k :: 0 <= k < |log| && log[k].task == t ==> log[k].generation <= log[i].generation)
    && (forall k :: 0 <= k < i && log[k].task == t ==> log[k].generation < log[i].generation)
  }

  lemma {:induction false} WinnerHeld(log: seq<Command>, t: TaskId) returns (i: nat)
    ensures t in Replay(log) <==> exists k :: 0 <= k < |log| && log[k].task == t
    ensures t in Replay(log) ==> Wins(log, i, t) && Replay(log)[t] == log[i]
  {
    i := 0;
    if log != [] {
      var n := |log| - 1;
      var before := log[..n];
      assert forall k :: 0 <= k < n ==> before[k] == log[k];
      i := WinnerHeld(before, t);
      if log[n].task == t {
        if t in Replay(before) && log[n].generation <= Replay(before)[t].generation {
          assert Wins(log, i, t);
        } else {
          i := n;
        }
      } else if t in Replay(before) {
        var k :| 0 <= k < |before| && before[k].task == t;
        assert log[k].task == t;
      }
    }
  }

  lemma WinnerUnique(log: seq<Command>, i: nat, k: nat, t: TaskId)
    requires Wins(log, i, t) && Wins(log, k, t)
    ensures i == k
  {
  }

  /** The record held for a task is exactly the winning command. */
  lemma RecordIsWinner(log: seq<Command>, t: TaskId, i: nat)
    requires Wins(log, i, t)
    ensures t in Replay(log) && Replay(log)[t] == log[i]
  {
    var k := WinnerHeld(log, t);
    WinnerUnique(log, i, k, t);
  }

  /** Two commands for the same task and generation say the same thing. */
  ghost predicate Agree(log: seq<Command>) {
    forall i, k :: 0 <= i < |log| && 0 <= k < |log| && log[i].task == log[k].task && log[i].generation == log[k].generation
                   ==> log[i] == log[k]
  }

  ghost predicate SameCommands(a: seq<Command>, b: seq<Command>) {
    && (forall i :: 0 <= i < |a| ==> a[i] in b)
    && (forall i :: 0 <= i < |b| ==> b[i] in a)
  }

  lemma StillRecorded(a: seq<Command>, b: seq<Command>, t: TaskId)
    requires SameCommands(a, b) && t in Replay(a)
    ensures t in Replay(b)
  {
    var i := WinnerHeld(a, t);
    var k := WinnerHeld(b, t);
    assert a[i] in b;
  }

  /** Duplicating and reordering commands that agree changes nothing. */
  lemma ReplayIgnoresOrder(a: seq<Command>, b: seq<Command>)
    requires SameCommands(a, b) && Agree(a)
    ensures Replay(a) == Replay(b)
  {
    forall t | t in Replay(b) ensures t in Replay(a) { StillRecorded(b, a, t); }
    forall t | t in Replay(a) ensures t in Replay(b) && Replay(a)[t] == Replay(b)[t] {
      StillRecorded(a, b, t);
      var i := WinnerHeld(a, t);
      var k := WinnerHeld(b, t);
      assert a[i] in b && b[k] in a;
    }
  }

  /** Agreement is needed: of two different commands with one task and one
      generation, the first to be applied wins. */
  lemma OrderMattersOtherwise(c: Command, d: Command)
    requires c.task == d.task && c.generation == d.generation && c != d
    ensures Replay([c, d]) != Replay([d, c])
  {
    assert [c, d][..1] == [c] && [d, c][..1] == [d];
    assert Replay([c]) == map[c.task := c] && Replay([d]) == map[d.task := d] by {
      assert [c][..0] == [] && [d][..0] == [];
    }
    assert Replay([c, d])[c.task] == c && Replay([d, c])[c.task] == d;
  }

  lemma {:induction false} ReplayContinues(x: seq<Command>, x': seq<Command>, rest: seq<Command>)
    requires Replay(x) == Replay(x')
    ensures Replay(x + rest) == Replay(x' + rest)
  {
    if rest == [] {
      assert x + rest == x && x' + rest == x';
    } else {
      var n := |rest| - 1;
      ReplayContinues(x, x', rest[..n]);
      assert (x + rest)[..|x + rest| - 1] == x + rest[..n];
      assert (x' + rest)[..|x' + rest| - 1] == x' + rest[..n];
    }
  }

  /** A repeated command, wherever it lands after its first copy, is ignored, with
      no assumption on the rest of the log. */
  lemma LateDuplicateIgnored(log: seq<Command>, k: nat, at: nat)
    requires k < at <= |log|
    ensures Replay(log[..at] + [log[k]] + log[at..]) == Replay(log)
  {
    RepeatedBefore(log[..at], k, log[at..]);
    assert log[..at] + log[at..] == log && log[..at][k] == log[k];
  }

  lemma RepeatedBefore(head: seq<Command>, k: nat, rest: seq<Command>)
    requires k < |head|
    ensures Replay(head + [head[k]] + rest) == Replay(head + rest)
  {
    RepeatIgnored(head, k);
    ReplayContinues(head + [head[k]], head, rest);
  }

  lemma RepeatIgnored(log: seq<Command>, k: nat)
    requires k < |log|
    ensures Replay(log + [log[k]]) == Replay(log)
  {
    var i := WinnerHeld(log, log[k].task);
    assert (log + [log[k]])[..|log|] == log;
  }

  /** As a replica applies more of the log its record for a task never goes back
      and changes only to a strictly newer generation. */
  lemma {:induction false} RecordsOnlyGrow(log: seq<Command>, k: nat, t: TaskId)
    requires k <= |log| && t in Replay(log[..k])
    ensures t in Replay(log) && Replay(log)[t].generation >= Replay(log[..k])[t].generation
    ensures Replay(log)[t].generation == Replay(log[..k])[t].generation ==> Replay(log)[t] == Replay(log[..k])[t]
    decreases |log|
  {
    if k < |log| {
      var shorter := log[..|log| - 1];
      assert shorter[..k] == log[..k];
      RecordsOnlyGrow(shorter, k, t);
    } else {
      assert log[..k] == log;
    }
  }

  /******* Waiting for a decision *******/

  /** One poll of the local ledger: how much of the agreed log it has applied, and
      whether this node leads when it next considers proposing. */
  datatype Poll = Poll(applied: nat, leader: bool)

  datatype Outcome = Agreed(winner: Command) | NotLeader | Refused | Expired

  predicate Recorded(log: seq<Command>, applied: nat, want: Command) {
    && applied <= |log| && want.task in Replay(log[..applied])
    && Replay(log[..applied])[want.task].generation >= want.generation
  }

  /** Decide: a fast check, a proposal if leading, then polls until the record is
      at least as new as the request or the deadline (the end of `polls`) comes.
      `log` is the log as finally agreed; `accepted` tells whether the node took
      the first proposal. */
  method Decide(log: seq<Command>, want: Command, accepted: bool, polls: seq<Poll>) returns (r: Outcome, proposals: nat)
    requires |polls| > 0
    requires forall i :: 0 <= i < |polls| ==> polls[i].applied <= |log|
    ensures r.Agreed? ==> exists i :: 0 <= i < |polls| && Recorded(log, polls[i].applied, want)
                                      && r.winner == Replay(log[..polls[i].applied])[want.task]
    ensures r.NotLeader? <==> !Recorded(log, polls[0].applied, want) && !polls[0].leader
    ensures r.Refused? <==> !Recorded(log, polls[0].applied, want) && polls[0].leader && !accepted
    ensures r.Expired? <==> polls[0].leader && accepted && forall i :: 0 <= i < |polls| ==> !Recorded(log, polls[i].applied, want)
    ensures proposals > 0 <==> !Recorded(log, polls[0].applied, want) && polls[0].leader
  {
    proposals := 0;
    if Recorded(log, polls[0].applied, want) {
      return Agreed(Replay(log[..polls[0].applied])[want.task]), proposals;
    }
    if !polls[0].leader {
      return NotLeader, proposals;
    }
    proposals := 1;
    if !accepted {
      return Refused, proposals;
    }
    for i := 1 to |polls|
      invariant proposals > 0
      invariant forall k :: 0 <= k < i ==> !Recorded(log, polls[k].applied, want)
    {
      if Recorded(log, polls[i].applied, want) {
        return Agreed(Replay(log[..polls[i].applied])[want.task]), proposals;
      }
      if polls[i].leader {
        proposals := proposals + 1;
      }
    }
    return Expired, proposals;
  }

  /** Whoever asks, on whichever replica and however late: answers for a task with
      the same generation are the same record, and an answer is never older than
      the request. */
  lemma AnswersAgree(log: seq<Command>, a: nat, b: nat, first: Command, second: Command)
    requires Recorded(log, a, first) && Recorded(log, b, second) && first.task == second.task
    ensures var r, q := Replay(log[..a])[first.task], Replay(log[..b])[first.task];
            && r.task == q.task == first.task
            && (r.generation == q.generation ==> r == q)
            && r.generation >= first.generation && q.generation >= second.generation
  {
    var i := WinnerHeld(log[..a], first.task);
    var k := WinnerHeld(log[..b], first.task);
    if a <= b {
      assert log[..b][..a] == log[..a];
      RecordsOnlyGrow(log[..b], a, first.task);
    } else {
      assert log[..a][..b] == log[..b];
      RecordsOnlyGrow(log[..a], b, first.task);
    }
  }
}
