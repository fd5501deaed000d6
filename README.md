# Mail-merge dispatch loop

A Dafny model of the dispatch loop of a mail-merge tool. When the operator presses "Send Emails", the handler resolves a Gmail label id once. It then walks the recipient rows of the uploaded table in order. For each row it reads the `Email` cell (stripped of surrounding whitespace) and extracts an address from it. A row with no address is added to `skipped` under its stripped raw value. For any other row the handler tries four steps:

- fill in the subject and body templates from the row's columns;
- send the message;
- when the label id is truthy, add the label to the sent message;
- count the row in `sent_count` and pause 30 seconds.

Any exception in those steps adds the pair (extracted address, exception text) to `errors`.

The model has these parts:

- `PyRepr` (repr.dfy): Python's `repr` of a string, which is the text of a `KeyError`, with a decoder that reads it back.
- `Template` (template.dfy): `str.format(**row)` on a template already split into literals and `{field}` placeholders. It raises `KeyError` at the first missing field.
- `Recipients` (recipients.dfy): `str.strip()` with Python's exact whitespace set, and the reading of the `Email` cell.
- `DispatchSpec` (dispatch_spec.dfy): the collaborators as parameters (`Env`), the run constants (`Campaign`), the calls the loop makes (`Call`), and one iteration as the function `Process`. `TryDeliver` is its `try` block. The final tallies (`SentCount`, `SkippedOf`, `ErrorsOf`, `CallsOf`) are functions of the per-row runs. `Delivers`, `SkippedRows` and `FailedRows` are independent reference definitions of a counted row, of the skipped list and of the error list.
- `DispatchProperties` (dispatch_properties.dfy): what holds of one row and of a whole run.
- `Dispatch` (dispatch.dfy): the loop itself as the method `SendEmails`, with its counter and lists. The `try` block is the method `TrySend`. Both are proved equal to the specification functions.
- `DispatchScenarios` (scenarios.dfy): two concrete three-row campaigns.

Address extraction, markup conversion and the two Gmail calls are fields of `Env`. Each Gmail call is given the row's position, so any sequence of replies is one choice of `Env`. A send reply either delivers, with or without an `id` field, or raises with a reason. A label reply either succeeds or raises. The 30-second sleep is a `Sleep(30)` entry in the call trace. A falsy label id or extraction result (`None` or `""`) is written `""`.

What app.py does at the points where a reader might expect otherwise:

- A label failure after a delivered send fails the row: the `modify` call is inside the same `try`, so the row goes to `errors` and is not counted, although the message was sent.
- The pause is a fixed 30 seconds after each counted send only. There is no jitter, and skipped or failed rows do not pause. The multipage variant `.pages/Send_Emails.py` differs here: it pauses for a random 90-110% of a configured delay after every non-skipped row (lines 136-143); that file is not part of this model.
- There is no draft mode: every row with an address is sent. The multipage variant can save drafts instead of sending (lines 136-137).
- When a label is set, a send reply without an `id` raises `KeyError('id')`, so the row fails with reason `'id'`.
- The reason recorded for a missing template column is `str(KeyError(name))`, which is Python's `repr` of the column name: in single quotes, in double quotes when the name contains a single quote and no double quote, with backslashes, quotes and control characters escaped (`PyRepr`, repr.dfy).

## Model

| member | source | states |
|---|---|---|
| PyRepr.ReprRoundTrip | app.py:60-61 | `repr` wraps the text in the quote Python picks, and the text between the quotes reads back to the original key, so distinct keys give distinct texts |
| PyRepr.ReprPlain | app.py:60-61 | a key without quotes, backslashes or non-printable characters is shown as itself in single quotes |
| PyRepr.UnescapeChar | app.py:60-61 | each escaped character reads back as itself, whatever follows it |
| PyRepr.UnescapeEscapeAll | app.py:60-61 | the escaped body of a `repr` reads back to the original text |
| Template.FormatSucceedsIff | app.py:20-21 | `format(**row)` succeeds exactly when every field the template names is a column of the row (both directions) |
| Template.FormatFailureIsFirstMissing | app.py:20-21 | when formatting raises, the reported key is the first placeholder, in template order, whose field the row lacks |
| Template.FormatDependsOnlyOnFields | app.py:20-21 | rows that agree on the template's fields render identically; no other column affects the result |
| Template.FormatAppend | app.py:20-21 | rendering a concatenated template is the concatenation of the renderings |
| Recipients.StripStartShape | app.py:12 | lstrip removes exactly a whitespace prefix and stops at a non-whitespace character |
| Recipients.StripEndShape | app.py:12 | rstrip removes exactly a whitespace suffix and stops at a non-whitespace character |
| Recipients.StripStartKeeps | app.py:12 | lstrip leaves a string unchanged when it does not start with whitespace |
| Recipients.StripEndKeeps | app.py:12 | rstrip leaves a string unchanged when it does not end with whitespace |
| Recipients.StripShape | app.py:12 | the stripped value is a slice of the cell with only whitespace before and after it |
| Recipients.StripEnds | app.py:12 | a non-empty stripped value neither starts nor ends with whitespace |
| Recipients.StripIdempotent | app.py:12 | stripping twice equals stripping once |
| DispatchProperties.RowSkipped | app.py:12-16 | a row is skipped exactly when extraction yields nothing; it is then recorded as its stripped raw `Email` value and makes no render, send or label call |
| DispatchProperties.RowSentIff | app.py:18-57 | a row is counted exactly when an address is extracted, both templates fill in, the send is delivered and, if the label id is truthy, the reply has an id and the label call succeeds |
| DispatchProperties.ProcessSent | app.py:47-58 | a counted row makes its send, then the label call on the returned id when a label is set, then one 30 s pause |
| DispatchProperties.LabelFailureAfterSend | app.py:50-61 | a label call that raises after a delivered send puts the row in `errors` with that reason; the row is not counted and has no pause |
| DispatchProperties.RowFailedAddress | app.py:60-61 | an error entry carries the extracted address, which is non-empty |
| DispatchProperties.RowPauses | app.py:57-58 | a row pauses once if counted and never otherwise |
| DispatchProperties.RowCalls | app.py:38-55 | a row's calls: at most one send, made first, to the extracted address; a label call only right after it, with the run's truthy label id, on the id that send returned |
| DispatchProperties.MissingFieldFails | app.py:18-61 | a row with an address whose templates name a missing column fails, with no call made, with the `KeyError` text (`repr`) of the first missing field in template order, subject before body |
| DispatchProperties.Partition | app.py:6-61 | `sent_count + len(skipped) + len(errors)` equals the number of rows visited |
| DispatchProperties.SleepsCountSent | app.py:57-58 | if each row pauses once exactly when counted, the pauses in the trace equal `sent_count` |
| DispatchProperties.AppendOnly | app.py:11-61 | the lists only grow: what the first k rows put in `skipped`, `errors` and the trace is a prefix of the final value, and the count never decreases |
| DispatchProperties.AdvanceOne | app.py:11-61 | one more row adds its own outcome, and only that, to each tally and its calls to the trace |
| DispatchProperties.ErrorsFromFailedRows | app.py:60-61 | every `errors` entry is the address and reason of some failed row |
| DispatchProperties.TraceSendsServeRows | app.py:38-47 | every send in the trace goes to the non-empty extracted address of the row it serves |
| DispatchProperties.TraceLabelsFollowSends | app.py:50-55 | every label call comes right after its row's send, uses the run's single truthy label id and targets the id that send returned |
| DispatchProperties.TraceSendsInRowOrder | app.py:11-47 | sends go out in strictly increasing row order, so no row is sent twice |
| DispatchProperties.CampaignSleepsMatchSent | app.py:57-58 | over a whole campaign the number of 30 s pauses equals `sent_count` |
| DispatchProperties.SkippedMatchesRows | app.py:11-16 | `skipped` is exactly the stripped raw `Email` values of the rows without an extractable address, in row order |
| DispatchProperties.ErrorsMatchRows | app.py:13-61 | `errors` is exactly, in row order, the extracted address and exception text of each row with an address that `Delivers` does not count |
| DispatchProperties.CampaignErrorsUseExtractedAddress | app.py:13-61 | every `errors` entry names a non-empty address extracted from some row, never the raw field |
| DispatchProperties.CampaignTraceShape | app.py:5-55 | the whole trace: sends to extracted addresses only, label calls after their send with the label id resolved before the loop, rows in order and sent at most once |
| Dispatch.TrySend | app.py:18-55 | the `try` block's raising steps, in order (subject, body, send, `id` lookup, label), return the exception text of the first step that raises (`repr` of the missing key for a `KeyError`, the service's reason otherwise) and the calls made, as `TryDeliver` specifies |
| Dispatch.SendEmails | app.py:4-61 | the loop's final `sent_count`, `skipped`, `errors` and trace are those of the per-row specification; the three buckets add up to the row count; pauses equal `sent_count`; `skipped` and `errors` equal their reference lists |
| DispatchScenarios.AllDelivered | app.py:11-61 | three rows, the middle one `" not-an-email "`, a transport that always delivers: 2 sent, skipped `["not-an-email"]`, no errors |
| DispatchScenarios.LastSendFails | app.py:11-61 | the same rows, with the send for `c@x.com` failing: 1 sent, 1 skipped, errors `[("c@x.com", reason)]` |

## Left out

- The Streamlit calls (button, spinner and the success, warning and error summaries, app.py:4, 10, 63-68) are presentation only.
- The HTML wrapper, the hidden preheader built from `Name`, the `<!-- ID:idx -->` comment and the fixed `from` and `reply-to` headers (app.py:23-42) are fixed layout. The modelled message keeps only the recipient, the subject and the converted body.
- MIME construction and base64url encoding (app.py:38, 45-46) are library serialisation and are not modelled.
- `extract_email`, `convert_bold` and `get_or_create_label` are not defined in app.py. The first two are total functions in `Env`; the label id is a parameter of the run. `get_or_create_label` (app.py:5) runs before the loop and outside any `try`: if it raises, the handler stops before visiting any row and shows no summary; the model starts from an already resolved label id and does not model that abort. Exceptions raised by `extract_email` (app.py:13, outside the `try`, so they abort the handler mid-loop) or by `convert_bold` are not modelled.
- TrySend: the `KeyError` text follows `repr` for every character below U+0100. Python also escapes non-printable characters above U+00FF (as `\uXXXX` or `\UXXXXXXXX`); the model writes those characters as they are.
- The Gmail `send` and `modify` calls are oracles in `Env`, indexed by row position. Authentication, quotas and the network are whatever those oracles return.
- `time.sleep(30)` is a trace event; wall-clock time is not modelled. An exception raised by the sleep itself is not modelled either.
- `str.format` is modelled on a template already split into literals and named fields. Parsing of the template text is not modelled: `{{`/`}}` escapes, format specs and conversions, positional fields, attribute and index lookups, and the `ValueError`/`IndexError` they can raise.
- Cells are strings. The `str()` conversion of non-string pandas values (numbers, `NaN`) is not modelled.
- The dataframe index label `idx` is not modelled; the row's position stands for it.
- Exceptions that are not `Exception` (such as `KeyboardInterrupt`) abort the handler and are not modelled.
