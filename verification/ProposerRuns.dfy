/** Properties of one proposer on its own: value selection, proposal IDs under a change of the system
    size, and how a run of failing prepare rounds ends. */
module ProposerRuns {
  import opened Common
  import opened PaxosTypes
  import opened Proposers
  import opened PaxosInvariants

  // Value selection.

  /** The highest ID that any promise reports a value under, -1 if none does. */
  function HighestReportID(promises: seq<Message>): (id: int)
    requires forall m :: m in promises ==> m.Promise?
    ensures forall m :: m in promises && m.acceptedValue.Some? ==> m.acceptedID <= id
    ensures id == -1 || exists m :: m in promises && m.acceptedValue.Some? && m.acceptedID == id
  {
    if promises == [] then -1
    else
      var last, rest := promises[|promises| - 1], promises[..|promises| - 1];
      assert promises == rest + [last];
      if last.acceptedValue.Some? then Max(last.acceptedID, HighestReportID(rest)) else HighestReportID(rest)
  }

  /** The value of some promise that reports under the highest ID. */
  ghost predicate ReportedHighest(promises: seq<Message>, v: PaxosValue)
    requires forall m :: m in promises ==> m.Promise?
  {
    exists m :: m in promises && m.acceptedID == HighestReportID(promises) && m.acceptedValue == Some(v)
  }

  /** Promise i reports a value and no later one does. */
  predicate ReportsLast(promises: seq<Message>, i: nat)
    requires forall m :: m in promises ==> m.Promise?
  {
    && i < |promises| && promises[i].acceptedValue.Some?
    && forall j :: i < j < |promises| ==> promises[j].acceptedValue.None?
  }

  lemma {:induction false} LastReportAt(promises: seq<Message>, i: nat)
    requires (forall m :: m in promises ==> m.Promise?) && ReportsLast(promises, i)
    ensures LastReport(promises) == promises[i].acceptedValue && LastReportID(promises) == promises[i].acceptedID
  {
    var rest := promises[..|promises| - 1];
    if i < |promises| - 1 {
      assert promises[|promises| - 1].acceptedValue.None?;
      assert forall j :: 0 <= j < |rest| ==> rest[j] == promises[j];
      LastReportAt(rest, i);
    }
  }

  lemma {:induction false} NoReports(promises: seq<Message>)
    requires forall m :: m in promises ==> m.Promise? && m.acceptedValue.None?
    ensures LastReport(promises).None? && HighestReportID(promises) == -1
  {
    if promises != [] {
      var rest := promises[..|promises| - 1];
      assert promises[|promises| - 1] in promises;
      assert forall m :: m in rest ==> m in promises;
      NoReports(rest);
    }
  }

  /** Without any report the proposer keeps its own value. */
  lemma {:induction false} NothingToTake(promises: seq<Message>, original: PaxosValue)
    requires forall m :: m in promises ==> m.Promise? && m.acceptedValue.None?
    ensures ChosenValue(promises, original) == original
  {
    NoReports(promises);
  }

  /** The value that the loop takes was reported under the highest ID, as it should be, if and only if the
      promise that reports last does so under the highest ID, or an earlier promise reports the same value
      under it. */
  lemma {:induction false} SelectionHighestIff(promises: seq<Message>, original: PaxosValue, i: nat)
    requires (forall m :: m in promises ==> m.Promise?) && ReportsLast(promises, i)
    ensures ReportedHighest(promises, ChosenValue(promises, original)) <==>
            promises[i].acceptedID == HighestReportID(promises) ||
            exists j :: 0 <= j < i && promises[j].acceptedID == HighestReportID(promises)
                        && promises[j].acceptedValue == promises[i].acceptedValue
  {
    LastReportAt(promises, i);
    hide HighestReportID;
    if ReportedHighest(promises, ChosenValue(promises, original)) {
      var m :| m in promises && m.acceptedID == HighestReportID(promises)
               && m.acceptedValue == Some(ChosenValue(promises, original));
      var j :| 0 <= j < |promises| && promises[j] == m;
      assert j <= i;
    }
  }

  /** The same condition as runs use it. */
  lemma {:induction false} TakesTopIff(promises: seq<Message>, original: PaxosValue, i: nat)
    requires (forall m :: m in promises ==> m.Promise?) && ReportsLast(promises, i)
    ensures TakesTop(promises) <==> ReportedHighest(promises, ChosenValue(promises, original))
  {
    LastReportAt(promises, i);
    HighestIsTop(promises);
    hide HighestReportID, LastReport, LastReportID;
    assert promises[i] in promises;
    if TakesTop(promises) {
      var m :| IsTop(promises, m) && m.acceptedValue == LastReport(promises);
      assert m.acceptedID == HighestReportID(promises);
    }
    if ReportedHighest(promises, ChosenValue(promises, original)) {
      var m :| m in promises && m.acceptedID == HighestReportID(promises)
               && m.acceptedValue == Some(ChosenValue(promises, original));
      assert IsTop(promises, m);
    }
  }

  lemma {:induction false} HighestIsTop(promises: seq<Message>)
    requires forall m :: m in promises ==> m.Promise?
    ensures forall m :: m in promises && m.acceptedValue.Some? ==>
                          (IsTop(promises, m) <==> m.acceptedID == HighestReportID(promises))
  {
    forall m | m in promises && m.acceptedValue.Some?
      ensures IsTop(promises, m) <==> m.acceptedID == HighestReportID(promises)
    {
      if IsTop(promises, m) {
        var top :| top in promises && top.acceptedValue.Some? && top.acceptedID == HighestReportID(promises);
      }
    }
  }

  /** When reports under different IDs carry different values, the condition is that the last report is the
      highest. */
  lemma {:induction false} SelectionLastIff(promises: seq<Message>, original: PaxosValue, i: nat)
    requires (forall m :: m in promises ==> m.Promise?) && ReportsLast(promises, i)
    requires forall m, n :: m in promises && n in promises
                            && m.acceptedValue.Some? && m.acceptedValue == n.acceptedValue
                            ==> m.acceptedID == n.acceptedID
    ensures ReportedHighest(promises, ChosenValue(promises, original)) <==> LastReportHighest(promises)
  {
    LastReportAt(promises, i);
    HighestIsTop(promises);
    SelectionHighestIff(promises, original, i);
    hide HighestReportID, LastReport, LastReportID;
    assert promises[i] in promises;
    assert LastReportHighest(promises) <==> IsTop(promises, promises[i]);
  }

  /** Two promises that the loop gets wrong: the higher report arrives first. */
  lemma {:induction false} SelectionTakesLower(v: PaxosValue, w: PaxosValue, original: PaxosValue)
    requires v != w
    ensures var promises := [Promise(0, 3, 2, Some(v)), Promise(0, 3, 1, Some(w))];
            HighestReportID(promises) == 2 && ChosenValue(promises, original) == w
  {
    var promises := [Promise(0, 3, 2, Some(v)), Promise(0, 3, 1, Some(w))];
    assert promises[..1] == [Promise(0, 3, 2, Some(v))];
    assert promises[..1][..0] == [];
  }

  // System size.

  /** Growing the system keeps the owner and the round of the next proposal ID. */
  lemma {:induction false} ResizeKeepsSlotAndRound(lastID: nat, oldSize: nat, newSize: nat)
    requires lastID > 0 && 0 < oldSize <= newSize
    ensures var resized := Resized(lastID, oldSize, newSize);
            && resized > 0
            && Slot(resized, newSize) == Slot(lastID, oldSize)
            && (resized - 1) / newSize == (lastID - 1) / oldSize
  {
    var q, r := (lastID - 1) / oldSize, (lastID - 1) % oldSize;
    if lastID > oldSize {
      assert q * oldSize + r + (newSize - oldSize) * q == q * newSize + r;
      MultipleGap(q, -1, newSize - oldSize);
    } else {
      RemainderIs(lastID - 1, 0, lastID - 1, oldSize);
    }
    RemainderIs(Resized(lastID, oldSize, newSize) - 1, q, r, newSize);
  }

  // Failing prepare rounds.

  predicate StrictlyRising(ms: seq<Message>) {
    (forall i :: 0 <= i < |ms| ==> ms[i].Prepare?) && forall i, j :: 0 <= i < j < |ms| ==> ms[i].id < ms[j].id
  }

  /** One failing round: a prepare with the next ID, and two trials later the proposer begins again. */
  lemma {:induction false} OneFailingRound(trial: nat, value: PaxosValue, lastID: nat, script: seq<Environment>,
                                           setting: Setting)
      returns (next: nat, sent: Message)
    requires setting.peers > 0 && trial <= MAX_TRIALS && |script| >= 2
    requires FitsScript(Begin(trial, value), lastID, script, setting)
    requires |script[1].collected| < setting.threshold
    ensures sent.Prepare? && lastID <= sent.id < next
    ensures FitsScript(Begin(trial + 2, value), next, script[2..], setting)
    ensures var rest := Drive(Begin(trial + 2, value), next, script[2..], setting);
            Drive(Begin(trial, value), lastID, script, setting) == rest.(sent := [sent] + rest.sent)
  {
    var first := Next(Begin(trial, value), lastID, script[0], setting);
    assert script[1..][0] == script[1] && script[1..][1..] == script[2..];
    assert FitsScript(first.state, first.lastID, script[1..], setting);
    var second := Next(first.state, first.lastID, script[1], setting);
    assert second == Turn(Begin(trial + 2, value), first.lastID, Silent);
    next, sent := first.lastID, first.out.msg;
    assert Drive(first.state, first.lastID, script[1..], setting) ==
           Drive(Begin(trial + 2, value), next, script[2..], setting);
  }

  /** From an even trial on, a proposer that never collects enough promises sends one prepare per two
      trials, with strictly rising IDs, and then gives up. */
  lemma {:induction false} FailingRounds(trial: nat, value: PaxosValue, lastID: nat, script: seq<Environment>,
                                         setting: Setting)
    requires setting.peers > 0 && trial <= MAX_TRIALS + 2 && trial % 2 == 0
    requires FitsScript(Begin(trial, value), lastID, script, setting)
    requires |script| >= MAX_TRIALS + 3 - trial
    requires forall i :: 0 <= i < |script| ==> |script[i].collected| < setting.threshold
    ensures var run := Drive(Begin(trial, value), lastID, script, setting);
            && run.state == Idle(Failed)
            && |run.sent| == (MAX_TRIALS + 2 - trial) / 2
            && StrictlyRising(run.sent)
            && (forall i :: 0 <= i < |run.sent| ==> run.sent[i].id >= lastID)
    decreases MAX_TRIALS + 2 - trial
  {
    if trial <= MAX_TRIALS {
      var next, sent := OneFailingRound(trial, value, lastID, script, setting);
      hide Next, FitsScript, Drive;
      FailingRounds(trial + 2, value, next, script[2..], setting);
    } else {
      assert Next(Begin(trial, value), lastID, script[0], setting) == Turn(Idle(Failed), lastID, Silent);
    }
  }

  /** A proposal whose promise rounds all fail stops after exactly six prepares and returns an error. */
  lemma {:induction false} SixRounds(value: PaxosValue, lastID: nat, script: seq<Environment>, setting: Setting)
    requires setting.peers > 0 && |script| >= MAX_TRIALS + 3
    requires FitsScript(Begin(0, value), lastID, script, setting)
    requires forall i :: 0 <= i < |script| ==> |script[i].collected| < setting.threshold
    ensures var run := Drive(Begin(0, value), lastID, script, setting);
            && run.state == Idle(Failed) && ProposeResult(run.state.outcome).Err?
            && |run.sent| == 6 && StrictlyRising(run.sent)
  {
    FailingRounds(0, value, lastID, script, setting);
  }
}
