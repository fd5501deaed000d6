/** Properties of the dispatch loop's specification: how one row is routed,
    and what holds of a whole run. */
module DispatchProperties {
  import opened Wrappers
  import opened Template
  import opened Recipients
  import opened DispatchSpec

  // ---------------------------------------------------------------------
  // One row

  /** A row is skipped exactly when no address can be extracted; it is then
      recorded by its stripped raw `Email` value and makes no call at all. */
  lemma RowSkipped(env: Env, c: Campaign, i: nat, row: Row)
    ensures var r := Process(env, c, i, row);
      (r.outcome.Skipped? <==> env.extractEmail(RawEmail(row)) == "") &&
      (r.outcome.Skipped? ==> r.outcome.raw == RawEmail(row) && r.calls == [])
  {
  }

  /** A row is counted exactly when the reference condition holds: templates
      filled in, send delivered and, when a label is set, label applied. A
      label failure after a delivered send therefore fails the row. */
  lemma RowSentIff(env: Env, c: Campaign, i: nat, row: Row)
    ensures Process(env, c, i, row).outcome.Sent? <==> Delivers(env, c, i, row)
  {
  }

  /** A label call that raises after a delivered send puts the row in
      `errors` with the label call's reason: the message went out, but the
      row is not counted and does not pause. */
  lemma LabelFailureAfterSend(env: Env, c: Campaign, i: nat, row: Row, reason: string)
    requires env.extractEmail(RawEmail(row)) != "" && c.labelId != ""
    requires Format(c.subject, row).Success? && Format(c.body, row).Success?
    requires var msg := Message(env.extractEmail(RawEmail(row)), Format(c.subject, row).value,
               env.convertBold(Format(c.body, row).value));
      env.send(i, msg).Delivered? && env.send(i, msg).id.Some? &&
      env.addLabel(i, env.send(i, msg).id.value, c.labelId) == ModifyFailed(reason)
    ensures var r := Process(env, c, i, row);
      r.outcome == Failed(env.extractEmail(RawEmail(row)), reason) &&
      |r.calls| == 2 && r.calls[0].Send? && r.calls[1].Modify?
  {
  }

  /** An error entry records the extracted address, never the raw field. */
  lemma RowFailedAddress(env: Env, c: Campaign, i: nat, row: Row)
    ensures var r := Process(env, c, i, row);
      r.outcome.Failed? ==>
        r.outcome.addr == env.extractEmail(RawEmail(row)) && r.outcome.addr != ""
  {
  }

  lemma {:induction false} NoSleeps(calls: seq<Call>)
    requires forall k :: 0 <= k < |calls| ==> !calls[k].Sleep?
    ensures Sleeps(calls) == 0
    decreases |calls|
  {
    if calls != [] {
      NoSleeps(calls[..|calls| - 1]);
    }
  }

  /** A row pauses once when counted and never otherwise. */
  lemma RowPauses(env: Env, c: Campaign, i: nat, row: Row)
    ensures var r := Process(env, c, i, row);
      Sleeps(r.calls) == (if r.outcome.Sent? then 1 else 0)
  {
    var r := Process(env, c, i, row);
    if r.outcome.Sent? {
      var init := r.calls[..|r.calls| - 1];
      assert r.calls[|r.calls| - 1] == Sleep(PauseSeconds);
      NoSleeps(init);
    } else {
      NoSleeps(r.calls);
    }
  }

  /** The calls one row makes: at most one send, first, to the given address;
      a label call only second, with the run's truthy label id, on the id
      the send returned. */
  ghost predicate CallsShaped(env: Env, c: Campaign, i: nat, to: string, calls: seq<Call>)
  {
    (calls != [] ==> calls[0].Send? && calls[0].row == i && calls[0].msg.to == to && to != "") &&
    (forall k :: 1 <= k < |calls| ==> !calls[k].Send?) &&
    (forall k :: 0 <= k < |calls| && calls[k].Modify? ==>
       k == 1 && calls[k].row == i && c.labelId != "" && calls[k].labelId == c.labelId &&
       env.send(i, calls[0].msg) == Delivered(Some(calls[k].msgId)))
  }

  lemma RowCalls(env: Env, c: Campaign, i: nat, row: Row)
    ensures CallsShaped(env, c, i, env.extractEmail(RawEmail(row)), Process(env, c, i, row).calls)
  {
  }

  /** The run of a counted row: its send, the label call when there is a
      label, and one pause. */
  lemma ProcessSent(env: Env, c: Campaign, i: nat, row: Row)
    requires Delivers(env, c, i, row)
    ensures var to := env.extractEmail(RawEmail(row));
      var msg := Message(to, Format(c.subject, row).value, env.convertBold(Format(c.body, row).value));
      var tagging := if c.labelId == "" then [] else [Modify(i, env.send(i, msg).id.value, c.labelId)];
      Process(env, c, i, row) == RowRun(Sent, [Send(i, msg)] + tagging + [Sleep(PauseSeconds)])
  {
  }

  /** A row with an address but a template field its columns lack fails with
      the `KeyError` text of the first such field, in template order (the
      subject before the body), and nothing is sent for it. */
  lemma MissingFieldFails(env: Env, c: Campaign, i: nat, row: Row)
    requires env.extractEmail(RawEmail(row)) != ""
    requires !(Fields(c.subject) <= row.Keys) || !(Fields(c.body) <= row.Keys)
    ensures var r := Process(env, c, i, row);
      var t := if !(Fields(c.subject) <= row.Keys) then c.subject else c.body;
      r.calls == [] &&
      exists k :: FirstMissingAt(t, row, k) &&
        r.outcome == Failed(env.extractEmail(RawEmail(row)), KeyErrorText(t[k].name))
  {
    FormatSucceedsIff(c.subject, row);
    FormatSucceedsIff(c.body, row);
    var t := if !(Fields(c.subject) <= row.Keys) then c.subject else c.body;
    FormatFailureIsFirstMissing(t, row);
  }

  // ---------------------------------------------------------------------
  // Any sequence of row runs

  /** Every row lands in exactly one of the three buckets. */
  lemma {:induction false} Partition(runs: seq<RowRun>)
    ensures SentCount(runs) + |SkippedOf(runs)| + |ErrorsOf(runs)| == |runs|
    decreases |runs|
  {
    if runs != [] {
      Partition(runs[..|runs| - 1]);
    }
  }

  lemma {:induction false} SleepsAppend(a: seq<Call>, b: seq<Call>)
    ensures Sleeps(a + b) == Sleeps(a) + Sleeps(b)
    decreases |b|
  {
    if b == [] {
      assert a + b == a;
    } else {
      assert (a + b)[..|a + b| - 1] == a + b[..|b| - 1];
      SleepsAppend(a, b[..|b| - 1]);
    }
  }

  /** Rows that each pause once if counted and never otherwise make a run
      whose number of pauses is its `sent_count`. */
  lemma {:induction false} SleepsCountSent(runs: seq<RowRun>)
    requires forall k :: 0 <= k < |runs| ==>
      Sleeps(runs[k].calls) == (if runs[k].outcome.Sent? then 1 else 0)
    ensures Sleeps(CallsOf(runs)) == SentCount(runs)
    decreases |runs|
  {
    if runs != [] {
      var init := runs[..|runs| - 1];
      SleepsCountSent(init);
      SleepsAppend(CallsOf(init), runs[|runs| - 1].calls);
    }
  }

  /** The lists only grow: what the first k rows put in `skipped`, `errors`
      and the trace is a prefix of what the whole run puts there, and the
      count never decreases. */
  lemma {:induction false} AppendOnly(runs: seq<RowRun>, k: nat)
    requires k <= |runs|
    ensures SkippedOf(runs[..k]) <= SkippedOf(runs)
    ensures ErrorsOf(runs[..k]) <= ErrorsOf(runs)
    ensures CallsOf(runs[..k]) <= CallsOf(runs)
    ensures SentCount(runs[..k]) <= SentCount(runs)
    decreases |runs| - k
  {
    if k == |runs| {
      assert runs[..k] == runs;
    } else {
      var init := runs[..|runs| - 1];
      assert init[..k] == runs[..k];
      AppendOnly(init, k);
    }
  }

  /** What one more row adds to each tally: the loop's step. */
  lemma AdvanceOne(runs: seq<RowRun>, i: nat)
    requires i < |runs|
    ensures var o := runs[i].outcome;
      SentCount(runs[..i + 1]) == SentCount(runs[..i]) + (if o.Sent? then 1 else 0) &&
      SkippedOf(runs[..i + 1]) == SkippedOf(runs[..i]) + (if o.Skipped? then [o.raw] else []) &&
      ErrorsOf(runs[..i + 1]) == ErrorsOf(runs[..i]) + (if o.Failed? then [(o.addr, o.reason)] else []) &&
      CallsOf(runs[..i + 1]) == CallsOf(runs[..i]) + runs[i].calls
  {
    assert runs[..i + 1][..i] == runs[..i];
  }

  /** Each entry of `errors` is the address and reason of a failed row. */
  lemma {:induction false} ErrorsFromFailedRows(runs: seq<RowRun>)
    ensures forall e :: e in ErrorsOf(runs) ==>
      exists k :: 0 <= k < |runs| && runs[k].outcome == Failed(e.0, e.1)
    decreases |runs|
  {
    if runs != [] {
      var n := |runs| - 1;
      var init := runs[..n];
      ErrorsFromFailedRows(init);
      forall e | e in ErrorsOf(runs)
        ensures exists k :: 0 <= k < |runs| && runs[k].outcome == Failed(e.0, e.1)
      {
        if e in ErrorsOf(init) {
          var k :| 0 <= k < n && init[k].outcome == Failed(e.0, e.1);
          assert runs[k] == init[k];
        } else {
          assert runs[n].outcome == Failed(e.0, e.1);
        }
      }
    }
  }

  /** Each send of the trace serves a row of the first n, addressed to that
      row's extracted address. */
  ghost predicate SendsServeRows(env: Env, rows: seq<Row>, trace: seq<Call>, n: nat)
  {
    n <= |rows| &&
    forall k :: 0 <= k < |trace| && trace[k].Send? ==>
      trace[k].row < n && trace[k].msg.to != "" &&
      trace[k].msg.to == env.extractEmail(RawEmail(rows[trace[k].row]))
  }

  /** Each label call of the trace comes right after the send of the same row,
      uses the run's one label id, which is truthy, and targets the id that
      send returned. */
  ghost predicate LabelsFollowSends(env: Env, c: Campaign, trace: seq<Call>)
  {
    forall k :: 0 <= k < |trace| && trace[k].Modify? ==>
      0 < k && trace[k - 1].Send? && trace[k - 1].row == trace[k].row &&
      c.labelId != "" && trace[k].labelId == c.labelId &&
      env.send(trace[k].row, trace[k - 1].msg) == Delivered(Some(trace[k].msgId))
  }

  /** Sends go out in strictly increasing row order: rows are visited in
      order and none is sent twice. */
  ghost predicate SendsInRowOrder(trace: seq<Call>)
  {
    forall k, l :: 0 <= k < l < |trace| && trace[k].Send? && trace[l].Send? ==>
      trace[k].row < trace[l].row
  }

  /** Runs whose calls are each shaped as one row's calls, for the row at
      their position, send only to the rows' extracted addresses. */
  lemma {:induction false} TraceSendsServeRows(env: Env, c: Campaign, rows: seq<Row>, runs: seq<RowRun>)
    requires |runs| <= |rows|
    requires forall k :: 0 <= k < |runs| ==>
      CallsShaped(env, c, k, env.extractEmail(RawEmail(rows[k])), runs[k].calls)
    ensures SendsServeRows(env, rows, CallsOf(runs), |runs|)
    decreases |runs|
  {
    if runs != [] {
      var n := |runs| - 1;
      TraceSendsServeRows(env, c, rows, runs[..n]);
      var prev := CallsOf(runs[..n]);
      var cur := runs[n].calls;
      var trace := CallsOf(runs);
      assert trace == prev + cur;
      assert CallsShaped(env, c, n, env.extractEmail(RawEmail(rows[n])), cur);
      forall k | 0 <= k < |trace| && trace[k].Send?
        ensures trace[k].row < |runs| && trace[k].msg.to != "" &&
          trace[k].msg.to == env.extractEmail(RawEmail(rows[trace[k].row]))
      {
        if k < |prev| { assert trace[k] == prev[k]; } else { assert trace[k] == cur[k - |prev|]; }
      }
    }
  }

  /** ... and each of their label calls follows its row's send. */
  lemma {:induction false} TraceLabelsFollowSends(env: Env, c: Campaign, rows: seq<Row>, runs: seq<RowRun>)
    requires |runs| <= |rows|
    requires forall k :: 0 <= k < |runs| ==>
      CallsShaped(env, c, k, env.extractEmail(RawEmail(rows[k])), runs[k].calls)
    ensures LabelsFollowSends(env, c, CallsOf(runs))
    decreases |runs|
  {
    if runs != [] {
      var n := |runs| - 1;
      TraceLabelsFollowSends(env, c, rows, runs[..n]);
      var prev := CallsOf(runs[..n]);
      var cur := runs[n].calls;
      var trace := CallsOf(runs);
      assert trace == prev + cur;
      assert CallsShaped(env, c, n, env.extractEmail(RawEmail(rows[n])), cur);
      forall k | 0 <= k < |trace| && trace[k].Modify?
        ensures 0 < k && trace[k - 1].Send? && trace[k - 1].row == trace[k].row &&
          c.labelId != "" && trace[k].labelId == c.labelId &&
          env.send(trace[k].row, trace[k - 1].msg) == Delivered(Some(trace[k].msgId))
      {
        if k < |prev| {
          assert trace[k] == prev[k] && trace[k - 1] == prev[k - 1];
        } else {
          assert trace[k] == cur[k - |prev|];
          assert trace[k - 1] == cur[k - 1 - |prev|];
        }
      }
    }
  }

  /** ... and send in strictly increasing row order. */
  lemma {:induction false} TraceSendsInRowOrder(env: Env, c: Campaign, rows: seq<Row>, runs: seq<RowRun>)
    requires |runs| <= |rows|
    requires forall k :: 0 <= k < |runs| ==>
      CallsShaped(env, c, k, env.extractEmail(RawEmail(rows[k])), runs[k].calls)
    ensures SendsInRowOrder(CallsOf(runs))
    ensures forall k :: 0 <= k < |CallsOf(runs)| && CallsOf(runs)[k].Send? ==> CallsOf(runs)[k].row < |runs|
    decreases |runs|
  {
    if runs != [] {
      var n := |runs| - 1;
      TraceSendsInRowOrder(env, c, rows, runs[..n]);
      var prev := CallsOf(runs[..n]);
      var cur := runs[n].calls;
      var trace := CallsOf(runs);
      assert trace == prev + cur;
      assert CallsShaped(env, c, n, env.extractEmail(RawEmail(rows[n])), cur);
      assert forall k :: 0 <= k < |cur| && cur[k].Send? ==> k == 0 && cur[k].row == n;
      forall k | 0 <= k < |trace| && trace[k].Send?
        ensures trace[k].row < |runs|
      {
        if k < |prev| { assert trace[k] == prev[k]; } else { assert trace[k] == cur[k - |prev|]; }
      }
      forall k, l | 0 <= k < l < |trace| && trace[k].Send? && trace[l].Send?
        ensures trace[k].row < trace[l].row
      {
        if l < |prev| {
          assert trace[k] == prev[k] && trace[l] == prev[l];
        } else if k < |prev| {
          assert trace[k] == prev[k] && trace[l] == cur[l - |prev|];
        } else {
          // both would be sends of the last row, which makes only one
          assert false;
        }
      }
    }
  }

  // ---------------------------------------------------------------------
  // A whole campaign

  /** The runs of a prefix of the rows are the prefix of the runs. */
  lemma RunsPrefix(env: Env, c: Campaign, rows: seq<Row>, n: nat)
    requires n <= |rows|
    ensures Runs(env, c, rows)[..n] == Runs(env, c, rows[..n])
  {
  }

  /** In a whole campaign, the pauses are exactly as many as the counted sends. */
  lemma CampaignSleepsMatchSent(env: Env, c: Campaign, rows: seq<Row>)
    ensures Sleeps(CallsOf(Runs(env, c, rows))) == SentCount(Runs(env, c, rows))
  {
    var runs := Runs(env, c, rows);
    forall k | 0 <= k < |runs|
      ensures Sleeps(runs[k].calls) == (if runs[k].outcome.Sent? then 1 else 0)
    {
      RowPauses(env, c, k, rows[k]);
    }
    SleepsCountSent(runs);
  }

  /** `skipped` holds the stripped raw `Email` values of exactly the rows with
      no extractable address, in row order. */
  lemma {:induction false} SkippedMatchesRows(env: Env, c: Campaign, rows: seq<Row>)
    ensures SkippedOf(Runs(env, c, rows)) == SkippedRows(env, rows)
    decreases |rows|
  {
    if rows != [] {
      var n := |rows| - 1;
      RunsPrefix(env, c, rows, n);
      SkippedMatchesRows(env, c, rows[..n]);
      RowSkipped(env, c, n, rows[n]);
    }
  }

  /** `errors` holds, in row order, the extracted address and the exception
      text of exactly the rows with an address that are not counted. */
  lemma {:induction false} ErrorsMatchRows(env: Env, c: Campaign, rows: seq<Row>)
    ensures ErrorsOf(Runs(env, c, rows)) == FailedRows(env, c, rows)
    decreases |rows|
  {
    if rows != [] {
      var n := |rows| - 1;
      RunsPrefix(env, c, rows, n);
      ErrorsMatchRows(env, c, rows[..n]);
      RowSentIff(env, c, n, rows[n]);
    }
  }

  /** Every entry of `errors` names the address extracted from some row, never
      an empty one and never the raw field. */
  lemma CampaignErrorsUseExtractedAddress(env: Env, c: Campaign, rows: seq<Row>)
    ensures forall e :: e in ErrorsOf(Runs(env, c, rows)) ==>
      e.0 != "" && exists i :: 0 <= i < |rows| && e.0 == env.extractEmail(RawEmail(rows[i]))
  {
    var runs := Runs(env, c, rows);
    ErrorsFromFailedRows(runs);
    forall e | e in ErrorsOf(runs)
      ensures e.0 != "" && exists i :: 0 <= i < |rows| && e.0 == env.extractEmail(RawEmail(rows[i]))
    {
      var k :| 0 <= k < |runs| && runs[k].outcome == Failed(e.0, e.1);
      RowFailedAddress(env, c, k, rows[k]);
    }
  }

  /** The trace of a whole campaign: every send goes to the extracted address
      of a row that was not skipped, every label call follows its row's send
      with the run's one label id, and no row is sent twice or out of order. */
  lemma CampaignTraceShape(env: Env, c: Campaign, rows: seq<Row>)
    ensures var trace := CallsOf(Runs(env, c, rows));
      SendsServeRows(env, rows, trace, |rows|) && LabelsFollowSends(env, c, trace) &&
      SendsInRowOrder(trace)
  {
    var runs := Runs(env, c, rows);
    forall k | 0 <= k < |runs|
      ensures CallsShaped(env, c, k, env.extractEmail(RawEmail(rows[k])), runs[k].calls)
    {
      RowCalls(env, c, k, rows[k]);
    }
    TraceSendsServeRows(env, c, rows, runs);
    TraceLabelsFollowSends(env, c, rows, runs);
    TraceSendsInRowOrder(env, c, rows, runs);
  }
}
