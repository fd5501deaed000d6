/** The "Send Emails" handler's loop: visit the recipient rows in order, skip
    rows without an address, otherwise fill in the templates, send, label
    and pause, and keep the running tallies `sent_count`, `skipped` and
    `errors`. */
module Dispatch {
  import opened Wrappers
  import opened Template
  import opened Recipients
  import opened DispatchSpec
  import opened DispatchProperties

  /** The raising steps of the `try` block for the row at position i, sent to
      `toAddr`. A Python exception ends the block; here each raising step
      returns early with the exception's text in `raised`. `calls` are the
      remote calls made, in order. */
  method TrySend(env: Env, c: Campaign, i: nat, row: Row, toAddr: string)
    returns (raised: Option<string>, calls: seq<Call>)
    ensures Attempt(raised, calls) == TryDeliver(env, c, i, row, toAddr)
  {
    calls := [];
    var subject := Format(c.subject, row);
    if subject.Failure? {
      return Some(KeyErrorText(subject.error)), calls;
    }
    var bodyText := Format(c.body, row);
    if bodyText.Failure? {
      return Some(KeyErrorText(bodyText.error)), calls;
    }

    var message := Message(toAddr, subject.value, env.convertBold(bodyText.value));
    calls := calls + [Send(i, message)];
    var sentMsg := env.send(i, message);
    if sentMsg.SendFailed? {
      return Some(sentMsg.reason), calls;
    }

    if c.labelId != "" {
      if sentMsg.id.None? {
        return Some(KeyErrorText("id")), calls;
      }
      calls := calls + [Modify(i, sentMsg.id.value, c.labelId)];
      var labeled := env.addLabel(i, sentMsg.id.value, c.labelId);
      if labeled.ModifyFailed? {
        return Some(labeled.reason), calls;
      }
    }
    raised := None;
  }

  /** Runs the loop over `rows` with the label id resolved once beforehand
      (`c.labelId`). Returns the final tallies and every call made, in order. */
  method SendEmails(env: Env, c: Campaign, rows: seq<Row>)
    returns (sentCount: nat, skipped: seq<string>, errors: seq<(string, string)>, trace: seq<Call>)
    ensures sentCount == SentCount(Runs(env, c, rows))
    ensures skipped == SkippedOf(Runs(env, c, rows))
    ensures errors == ErrorsOf(Runs(env, c, rows))
    ensures trace == CallsOf(Runs(env, c, rows))
    ensures sentCount + |skipped| + |errors| == |rows|
    ensures Sleeps(trace) == sentCount
    ensures skipped == SkippedRows(env, rows)
    ensures errors == FailedRows(env, c, rows)
  {
    ghost var runs := Runs(env, c, rows);
    sentCount, skipped, errors, trace := 0, [], [], [];
    for i := 0 to |rows|
      invariant sentCount == SentCount(runs[..i])
      invariant skipped == SkippedOf(runs[..i])
      invariant errors == ErrorsOf(runs[..i])
      invariant trace == CallsOf(runs[..i])
    {
      AdvanceOne(runs, i);
      var row := rows[i];
      var toAddrRaw := RawEmail(row);
      var toAddr := env.extractEmail(toAddrRaw);
      if toAddr == "" {
        skipped := skipped + [toAddrRaw];
        continue;
      }

      var raised, calls := TrySend(env, c, i, row, toAddr);
      trace := trace + calls;
      if raised.Some? {
        errors := errors + [(toAddr, raised.value)];
      } else {
        sentCount := sentCount + 1;
        trace := trace + [Sleep(PauseSeconds)];
      }
    }
    assert runs[..|rows|] == runs;
    Partition(runs);
    CampaignSleepsMatchSent(env, c, rows);
    SkippedMatchesRows(env, c, rows);
    ErrorsMatchRows(env, c, rows);
  }
}
