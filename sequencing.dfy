/** The shape every register routine of the driver shares: a fixed list of
    stages issued in order, where the first stage that fails stops the routine
    and its status becomes the routine's result. `Run` is that semantics; the
    driver's methods are proved to behave as `Run` of their plan, and the
    lemmas here say what `Run` guarantees for every plan and every platform. */
module Sequencing {
  import opened Platform

  /** One step of a routine. */
  datatype Stage =
      /** One call; a non-zero code stops the routine. */
    | Single(call: Call)
      /** Every call is issued, their codes are OR-ed together (`err |=`) and
          checked once after the last one. */
    | Block(calls: seq<Call>)
      /** One read that must succeed and return `want` (the identity check). */
    | Expect(call: Call, want: Byte)

  /** How a routine ended. `Failed` carries the non-zero code it returns. */
  datatype Status = Done | Failed(code: ErrCode) | WrongValue(got: Byte)

  /** How a routine ended, and the platform log once it has returned: the
      log it started from followed by every call it issued. */
  datatype Outcome = Outcome(status: Status, log: seq<Call>)

  /** The status a routine that returns the C code `err` reports. */
  function StatusOf(err: ErrCode): Status {
    if err == 0 then Done else Failed(err)
  }

  /** The reply to the `k`-th of `calls` when they are issued after `log`. */
  function ReplyAt(o: Oracle, log: seq<Call>, calls: seq<Call>, k: nat): Reply
    requires k < |calls|
  {
    o(log + calls[..k], calls[k])
  }

  /** The accumulated code of a block: the bitwise OR of every reply's code. */
  function BlockErr(calls: seq<Call>, o: Oracle, log: seq<Call>): ErrCode
    decreases |calls|
  {
    if calls == [] then 0
    else BlockErr(calls[..|calls| - 1], o, log) | ReplyAt(o, log, calls, |calls| - 1).err
  }

  /** A block extended by one call ORs that call's code in. */
  lemma BlockErrSnoc(calls: seq<Call>, c: Call, o: Oracle, log: seq<Call>)
    ensures BlockErr(calls + [c], o, log) == BlockErr(calls, o, log) | o(log + calls, c).err
  {
    var cs := calls + [c];
    assert cs[..|cs| - 1] == calls;
    assert ReplyAt(o, log, cs, |cs| - 1) == o(log + calls, c);
  }

  /** The calls a stage issues. */
  function StageOps(s: Stage): seq<Call> {
    match s
    case Single(c) => [c]
    case Block(cs) => cs
    case Expect(c, _) => [c]
  }

  /** Every call a plan issues when no stage fails. */
  function Ops(plan: seq<Stage>): seq<Call>
    decreases |plan|
  {
    if plan == [] then [] else StageOps(plan[0]) + Ops(plan[1..])
  }

  /** Running one stage after `log`: a stage always issues all of its calls. */
  function RunStage(s: Stage, o: Oracle, log: seq<Call>): (r: Outcome)
    ensures r.log == log + StageOps(s)
    ensures r.status.Failed? ==> r.status.code != 0
  {
    match s
    case Single(c) => Outcome(StatusOf(o(log, c).err), log + [c])
    case Block(cs) => Outcome(StatusOf(BlockErr(cs, o, log)), log + cs)
    case Expect(c, want) =>
      var reply := o(log, c);
      var status :=
        if reply.err != 0 then Failed(reply.err)
        else if reply.data != want then WrongValue(reply.data)
        else Done;
      Outcome(status, log + [c])
  }

  /** Running a plan after `log`: stages in order, stopping after the first
      one that does not end in `Done`. A failure always carries a non-zero
      code. */
  function Run(plan: seq<Stage>, o: Oracle, log: seq<Call>): (r: Outcome)
    decreases |plan|
    ensures r.status.Failed? ==> r.status.code != 0
  {
    if plan == [] then Outcome(Done, log)
    else
      var first := RunStage(plan[0], o, log);
      if first.status != Done then first else Run(plan[1..], o, first.log)
  }

  /** A plan with no identity check: it can only end in `Done` or `Failed`. */
  predicate CodesOnly(plan: seq<Stage>) {
    forall i :: 0 <= i < |plan| ==> !plan[i].Expect?
  }

  lemma {:induction false} OpsAppend(p: seq<Stage>, q: seq<Stage>)
    ensures Ops(p + q) == Ops(p) + Ops(q)
    decreases |p|
  {
    if p == [] {
      assert p + q == q;
    } else {
      assert (p + q)[1..] == p[1..] + q;
      OpsAppend(p[1..], q);
    }
  }

  /** OR-ing codes together yields 0 exactly when every code was 0. */
  lemma OrZero(a: ErrCode, b: ErrCode)
    ensures a | b == 0 <==> a == 0 && b == 0
  {
  }

  /** A block's code is zero exactly when every call in it succeeded. */
  lemma {:induction false} BlockErrZero(calls: seq<Call>, o: Oracle, log: seq<Call>)
    ensures BlockErr(calls, o, log) == 0
        <==> forall k :: 0 <= k < |calls| ==> ReplyAt(o, log, calls, k).err == 0
    decreases |calls|
  {
    if calls != [] {
      var n := |calls| - 1;
      var front := calls[..n];
      BlockErrZero(front, o, log);
      var a, b := BlockErr(front, o, log), ReplyAt(o, log, calls, n).err;
      assert BlockErr(calls, o, log) == a | b;
      OrZero(a, b);
      if a == 0 && b == 0 {
        forall k | 0 <= k < |calls| ensures ReplyAt(o, log, calls, k).err == 0 {
          if k < n {
            assert front[..k] == calls[..k];
            assert ReplyAt(o, log, front, k) == ReplyAt(o, log, calls, k);
          }
        }
      } else if a != 0 {
        var k :| 0 <= k < n && ReplyAt(o, log, front, k).err != 0;
        assert front[..k] == calls[..k];
        assert ReplyAt(o, log, front, k) == ReplyAt(o, log, calls, k);
      }
    }
  }

  /** Running `p + q` is running `p`, then, only if `p` ended in `Done`,
      running `q` from where `p` left the log. */
  lemma {:induction false} RunAppend(p: seq<Stage>, q: seq<Stage>, o: Oracle, log: seq<Call>)
    ensures var a := Run(p, o, log);
            Run(p + q, o, log) == if a.status != Done then a else Run(q, o, a.log)
    decreases |p|
  {
    if p == [] {
      assert p + q == q;
    } else {
      assert (p + q)[0] == p[0];
      assert (p + q)[1..] == p[1..] + q;
      var first := RunStage(p[0], o, log);
      if first.status == Done {
        RunAppend(p[1..], q, o, first.log);
      }
    }
  }

  /** Whatever the replies, a plan issues a prefix of its calls, in order,
      and nothing else. */
  lemma {:induction false} RunIssuesPrefix(plan: seq<Stage>, o: Oracle, log: seq<Call>)
    returns (n: nat)
    ensures n <= |Ops(plan)|
    ensures Run(plan, o, log).log == log + Ops(plan)[..n]
    decreases |plan|
  {
    if plan == [] {
      n := 0;
      assert log + [] == log;
    } else {
      var s0 := StageOps(plan[0]);
      var first := RunStage(plan[0], o, log);
      var ops := Ops(plan);
      if first.status != Done {
        n := |s0|;
        assert ops[..n] == s0;
      } else {
        var m := RunIssuesPrefix(plan[1..], o, first.log);
        n := |s0| + m;
        assert ops[..n] == s0 + Ops(plan[1..])[..m];
        assert log + s0 + Ops(plan[1..])[..m] == log + ops[..n];
      }
    }
  }

  /** A routine that runs `plan` and then issues `c` only if the plan ended
      in `Done`, where the plan itself never issues `c`: `c` is issued exactly
      when the plan succeeded, and the log it started from is kept. */
  lemma AnnouncesIffDone(plan: seq<Stage>, o: Oracle, log: seq<Call>, c: Call)
    requires c !in Ops(plan)
    ensures var r := Run(plan, o, log);
            var after := if r.status == Done then r.log + [c] else r.log;
            |log| <= |after| && after[..|log|] == log
            && (c in after[|log|..] <==> r.status == Done)
  {
    var n := RunIssuesPrefix(plan, o, log);
    var r := Run(plan, o, log);
    assert r.log[|log|..] == Ops(plan)[..n];
    if r.status == Done {
      assert (r.log + [c])[|log|..] == r.log[|log|..] + [c];
    }
  }

  /** A plan that ends in `Done` has issued every one of its calls, in order. */
  lemma {:induction false} RunDoneIssuesAll(plan: seq<Stage>, o: Oracle, log: seq<Call>)
    ensures Run(plan, o, log).status == Done ==> Run(plan, o, log).log == log + Ops(plan)
    decreases |plan|
  {
    if plan != [] {
      var ops := StageOps(plan[0]);
      RunDoneIssuesAll(plan[1..], o, log + ops);
      assert log + ops + Ops(plan[1..]) == log + (ops + Ops(plan[1..]));
    }
  }

  /** A plan that does not end in `Done` stopped at some stage `j`: every
      stage before `j` succeeded, stage `j` produced the plan's status, and
      nothing after stage `j` was issued. */
  lemma {:induction false} RunStopsAtFailure(plan: seq<Stage>, o: Oracle, log: seq<Call>)
    returns (j: nat)
    requires Run(plan, o, log).status != Done
    ensures j < |plan|
    ensures Run(plan[..j], o, log) == Outcome(Done, log + Ops(plan[..j]))
    ensures RunStage(plan[j], o, log + Ops(plan[..j])) == Run(plan, o, log)
    decreases |plan|
  {
    var first := RunStage(plan[0], o, log);
    if first.status != Done {
      j := 0;
      assert plan[..0] == [];
      assert log + [] == log;
    } else {
      var tail := plan[1..];
      var k := RunStopsAtFailure(tail, o, first.log);
      j := k + 1;
      var pre := plan[..j];
      assert pre[0] == plan[0];
      assert pre[1..] == tail[..k];
      assert Ops(pre) == StageOps(plan[0]) + Ops(tail[..k]);
      assert log + Ops(pre) == first.log + Ops(tail[..k]);
      assert plan[j] == tail[k];
    }
  }

  /** A stage that is not an identity check ends in `Done` exactly when every
      one of its calls was answered with code 0. */
  lemma StageDoneIff(s: Stage, o: Oracle, log: seq<Call>)
    requires !s.Expect?
    ensures RunStage(s, o, log).status == Done
        <==> forall k :: 0 <= k < |StageOps(s)| ==> ReplyAt(o, log, StageOps(s), k).err == 0
  {
    match s
    case Single(c) =>
      assert [c][..0] == [];
      assert log + [] == log;
      assert ReplyAt(o, log, [c], 0) == o(log, c);
    case Block(cs) =>
      BlockErrZero(cs, o, log);
  }

  /** Replies to calls issued as `a + b` after `log`: those to `b` are the
      replies `b` gets when issued after `log + a`. */
  lemma ReplyAtAppend(o: Oracle, log: seq<Call>, a: seq<Call>, b: seq<Call>)
    ensures forall k :: 0 <= k < |a| ==> ReplyAt(o, log, a + b, k) == ReplyAt(o, log, a, k)
    ensures forall k :: 0 <= k < |b| ==> ReplyAt(o, log, a + b, |a| + k) == ReplyAt(o, log + a, b, k)
  {
    forall k | 0 <= k < |a| ensures ReplyAt(o, log, a + b, k) == ReplyAt(o, log, a, k) {
      assert (a + b)[..k] == a[..k];
    }
    forall k | 0 <= k < |b| ensures ReplyAt(o, log, a + b, |a| + k) == ReplyAt(o, log + a, b, k) {
      assert (a + b)[..|a| + k] == a + b[..k];
      assert log + (a + b[..k]) == log + a + b[..k];
    }
  }

  /** For a plan of codes only, `Done` means exactly that every call of the
      plan, issued in order, would be answered with code 0: a single non-zero
      code anywhere makes the plan fail. */
  lemma {:induction false} RunDoneIff(plan: seq<Stage>, o: Oracle, log: seq<Call>)
    requires CodesOnly(plan)
    ensures Run(plan, o, log).status == Done
        <==> forall k :: 0 <= k < |Ops(plan)| ==> ReplyAt(o, log, Ops(plan), k).err == 0
    decreases |plan|
  {
    if plan != [] {
      var fst, tail := StageOps(plan[0]), plan[1..];
      var first := RunStage(plan[0], o, log);
      StageDoneIff(plan[0], o, log);
      ReplyAtAppend(o, log, fst, Ops(tail));
      if first.status == Done {
        assert CodesOnly(tail) by {
          forall i | 0 <= i < |tail| ensures !tail[i].Expect? {
            assert tail[i] == plan[i + 1];
          }
        }
        RunDoneIff(tail, o, log + fst);
        if Run(plan, o, log).status == Done {
          forall k | 0 <= k < |Ops(plan)| ensures ReplyAt(o, log, Ops(plan), k).err == 0 {
            if k >= |fst| {
              assert ReplyAt(o, log, Ops(plan), |fst| + (k - |fst|)) == ReplyAt(o, log + fst, Ops(tail), k - |fst|);
            }
          }
        } else {
          var k :| 0 <= k < |Ops(tail)| && ReplyAt(o, log + fst, Ops(tail), k).err != 0;
          assert ReplyAt(o, log, Ops(plan), |fst| + k).err != 0;
        }
      } else {
        var k :| 0 <= k < |fst| && ReplyAt(o, log, fst, k).err != 0;
        assert ReplyAt(o, log, Ops(plan), k).err != 0;
      }
    }
  }

  /** A plan of one stage is that stage. */
  lemma RunSingle(s: Stage, o: Oracle, log: seq<Call>)
    ensures Run([s], o, log) == RunStage(s, o, log)
  {
    assert [s][1..] == [];
  }
}
