/** What the "Send Emails" loop does with one row, and what a whole run adds
    up to, stated as functions of the rows and of the outcomes the
    collaborators report.

    The collaborators the loop calls but does not define are parameters:
    address extraction, the bold/link markup conversion, the Gmail send call
    and the Gmail label-modify call. Send and modify are given the position
    of the row they serve, so any sequence of replies a remote service could
    produce is one choice of these functions. */
module DispatchSpec {
  import opened Wrappers
  import opened Template
  import opened Recipients
  import opened PyRepr

  /** The fixed pause after each counted send, in seconds. */
  const PauseSeconds: nat := 30

  /** The message handed to the send call. The HTML wrapper, the hidden
      preheader and the fixed headers around the converted body are not
      part of this model. */
  datatype Message = Message(to: string, subject: string, body: string)

  /** Reply of `messages().send`: the new message's fields may or may not
      include an "id"; or the call raises, with `str(e)` as reason. */
  datatype SendReply = Delivered(id: Option<string>) | SendFailed(reason: string)

  /** Reply of `messages().modify`: done, or the call raises. */
  datatype ModifyReply = Labeled | ModifyFailed(reason: string)

  /** The loop's collaborators. An extraction result of "" stands for both
      `None` and the empty string, the two values `not to_addr` rejects. */
  datatype Env = Env(
    extractEmail: string -> string,
    convertBold: string -> string,
    send: (nat, Message) -> SendReply,
    addLabel: (nat, string, string) -> ModifyReply)

  /** What one run fixes before its loop starts: the label id resolved once
      (with "" standing for every falsy id) and the two templates. */
  datatype Campaign = Campaign(labelId: string, subject: Template, body: Template)

  /** An observable effect of the loop, in the order it happens. */
  datatype Call =
    | Send(row: nat, msg: Message)
    | Modify(row: nat, msgId: string, labelId: string)
    | Sleep(seconds: nat)

  /** The bucket one row lands in. */
  datatype Outcome = Skipped(raw: string) | Sent | Failed(addr: string, reason: string)

  datatype RowRun = RowRun(outcome: Outcome, calls: seq<Call>)

  /** `str(KeyError(key))`, which is `repr(key)`. */
  function KeyErrorText(key: string): (r: string)
  {
    Repr(key)
  }

  /** What the `try` block did up to its last raising step: the text of the
      exception it raised, if any, and the calls it made. */
  datatype Attempt = Attempt(raised: Option<string>, calls: seq<Call>)

  /** The raising part of the `try` block for the row at position i, sent to
      `to`: fill in the templates (subject first, so a subject error is the
      one reported), send, and label the sent message when a label is set,
      which reads the message id out of the send reply. */
  function TryDeliver(env: Env, c: Campaign, i: nat, row: Row, to: string): (a: Attempt)
  {
    var subject := Format(c.subject, row);
    var body := Format(c.body, row);
    if subject.Failure? then Attempt(Some(KeyErrorText(subject.error)), [])
    else if body.Failure? then Attempt(Some(KeyErrorText(body.error)), [])
    else
      var msg := Message(to, subject.value, env.convertBold(body.value));
      match env.send(i, msg)
      case SendFailed(reason) => Attempt(Some(reason), [Send(i, msg)])
      case Delivered(id) =>
        if c.labelId == "" then Attempt(None, [Send(i, msg)])
        else
          match id
          case None => Attempt(Some(KeyErrorText("id")), [Send(i, msg)])
          case Some(mid) =>
            match env.addLabel(i, mid, c.labelId)
            case ModifyFailed(reason) => Attempt(Some(reason), [Send(i, msg), Modify(i, mid, c.labelId)])
            case Labeled => Attempt(None, [Send(i, msg), Modify(i, mid, c.labelId)])
  }

  /** One iteration of the loop, for the row at position i: skip it when no
      address is extracted; otherwise try to deliver, then either count it
      and pause, or record the extracted address with the exception text. */
  function Process(env: Env, c: Campaign, i: nat, row: Row): (r: RowRun)
  {
    var raw := RawEmail(row);
    var to := env.extractEmail(raw);
    if to == "" then RowRun(Skipped(raw), [])
    else
      var a := TryDeliver(env, c, i, row, to);
      match a.raised
      case Some(reason) => RowRun(Failed(to, reason), a.calls)
      case None => RowRun(Sent, a.calls + [Sleep(PauseSeconds)])
  }

  /** The per-row runs of a whole campaign, rows taken in order. */
  function Runs(env: Env, c: Campaign, rows: seq<Row>): (runs: seq<RowRun>)
    ensures |runs| == |rows|
    ensures forall i :: 0 <= i < |rows| ==> runs[i] == Process(env, c, i, rows[i])
  {
    seq(|rows|, i requires 0 <= i < |rows| => Process(env, c, i, rows[i]))
  }

  /** Final value of `sent_count`. */
  function SentCount(runs: seq<RowRun>): (n: nat)
  {
    if runs == [] then 0
    else SentCount(runs[..|runs| - 1]) + (if runs[|runs| - 1].outcome.Sent? then 1 else 0)
  }

  /** Final contents of `skipped`. */
  function SkippedOf(runs: seq<RowRun>): (skipped: seq<string>)
  {
    if runs == [] then []
    else
      var o := runs[|runs| - 1].outcome;
      SkippedOf(runs[..|runs| - 1]) + (if o.Skipped? then [o.raw] else [])
  }

  /** Final contents of `errors`. */
  function ErrorsOf(runs: seq<RowRun>): (errors: seq<(string, string)>)
  {
    if runs == [] then []
    else
      var o := runs[|runs| - 1].outcome;
      ErrorsOf(runs[..|runs| - 1]) + (if o.Failed? then [(o.addr, o.reason)] else [])
  }

  /** Every call the run makes, in order. */
  function CallsOf(runs: seq<RowRun>): (trace: seq<Call>)
  {
    if runs == [] then [] else CallsOf(runs[..|runs| - 1]) + runs[|runs| - 1].calls
  }

  /** Number of pauses in a trace. */
  function Sleeps(calls: seq<Call>): (n: nat)
  {
    if calls == [] then 0
    else Sleeps(calls[..|calls| - 1]) + (if calls[|calls| - 1].Sleep? then 1 else 0)
  }

  /** Reference definition of a counted row, written as one condition rather
      than as the loop's routing: an address was extracted, both templates
      filled in, the send was delivered and, when there is a label, the reply
      carried an id and the label was applied to it. */
  predicate Delivers(env: Env, c: Campaign, i: nat, row: Row)
  {
    var to := env.extractEmail(RawEmail(row));
    var subject := Format(c.subject, row);
    var body := Format(c.body, row);
    to != "" && subject.Success? && body.Success? &&
    var reply := env.send(i, Message(to, subject.value, env.convertBold(body.value)));
    reply.Delivered? &&
    (c.labelId != "" ==> reply.id.Some? && env.addLabel(i, reply.id.value, c.labelId) == Labeled)
  }

  /** Reference definition of `skipped`: the stripped raw `Email` values of
      the rows with no extractable address, in row order. */
  function SkippedRows(env: Env, rows: seq<Row>): (skipped: seq<string>)
  {
    if rows == [] then []
    else
      var raw := RawEmail(rows[|rows| - 1]);
      SkippedRows(env, rows[..|rows| - 1]) + (if env.extractEmail(raw) == "" then [raw] else [])
  }

  /** The exception text an attempt ended with; "" when it raised nothing. */
  function ReasonOf(a: Attempt): (reason: string)
  {
    if a.raised.Some? then a.raised.value else ""
  }

  /** Reference definition of `errors`: for each row with an extracted
      address that is not counted by `Delivers`, that address and the text of
      the exception its `try` block raised, in row order. */
  function FailedRows(env: Env, c: Campaign, rows: seq<Row>): (errors: seq<(string, string)>)
  {
    if rows == [] then []
    else
      var n := |rows| - 1;
      var to := env.extractEmail(RawEmail(rows[n]));
      FailedRows(env, c, rows[..n]) +
        (if to != "" && !Delivers(env, c, n, rows[n]) then [(to, ReasonOf(TryDeliver(env, c, n, rows[n], to)))] else [])
  }
}
