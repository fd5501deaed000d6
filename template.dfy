/** Placeholder substitution as done by Python's `str.format(**row)` on the
    subject and body templates of a mail merge.

    A template is kept already split into literal text and named
    `{field}` placeholders. Substitution runs left to right and raises
    `KeyError(field)` at the first placeholder whose field the row lacks;
    nothing is ever substituted with a blank. */
module Template {
  import opened Wrappers

  /** One recipient row: column name to cell text. */
  type Row = map<string, string>

  datatype Piece = Lit(text: string) | Field(name: string)

  type Template = seq<Piece>

  /** The field names a template refers to. */
  function Fields(t: Template): (names: set<string>)
    decreases |t|
  {
    if t == [] then {}
    else (if t[0].Field? then {t[0].name} else {}) + Fields(t[1..])
  }

  /** `template.format(**row)`: the rendered text, or the name of the first
      missing field (the key of the `KeyError` Python raises). */
  function Format(t: Template, row: Row): (r: Result<string, string>)
    decreases |t|
  {
    if t == [] then Success("")
    else
      match t[0]
      case Lit(s) =>
        (match Format(t[1..], row)
         case Success(rest) => Success(s + rest)
         case Failure(f) => Failure(f))
      case Field(n) =>
        if n !in row then Failure(n)
        else
          match Format(t[1..], row)
          case Success(rest) => Success(row[n] + rest)
          case Failure(f) => Failure(f)
  }

  /** Position k holds the first placeholder whose field the row lacks. */
  ghost predicate FirstMissingAt(t: Template, row: Row, k: int)
  {
    0 <= k < |t| && t[k].Field? && t[k].name !in row &&
    forall j :: 0 <= j < k && t[j].Field? ==> t[j].name in row
  }

  /** Formatting succeeds exactly when every field the template names is a
      column of the row. */
  lemma {:induction false} FormatSucceedsIff(t: Template, row: Row)
    ensures Format(t, row).Success? <==> Fields(t) <= row.Keys
    decreases |t|
  {
    if t != [] {
      FormatSucceedsIff(t[1..], row);
    }
  }

  /** When formatting fails, the reported field is the first missing one, in
      the order the template names its fields. */
  lemma {:induction false} FormatFailureIsFirstMissing(t: Template, row: Row)
    requires Format(t, row).Failure?
    ensures exists k :: FirstMissingAt(t, row, k) && t[k].name == Format(t, row).error
    decreases |t|
  {
    match t[0]
    case Lit(s) =>
      FormatFailureIsFirstMissing(t[1..], row);
      var k :| FirstMissingAt(t[1..], row, k) && t[1..][k].name == Format(t[1..], row).error;
      assert FirstMissingAt(t, row, k + 1);
    case Field(n) =>
      if n !in row {
        assert FirstMissingAt(t, row, 0);
      } else {
        FormatFailureIsFirstMissing(t[1..], row);
        var k :| FirstMissingAt(t[1..], row, k) && t[1..][k].name == Format(t[1..], row).error;
        assert FirstMissingAt(t, row, k + 1);
      }
  }

  /** Rows that agree on the template's fields (present in both with the same
      text, or absent from both) render identically: the output depends on
      nothing else in the row. */
  lemma {:induction false} FormatDependsOnlyOnFields(t: Template, r1: Row, r2: Row)
    requires forall n :: n in Fields(t) ==> (n in r1 <==> n in r2)
    requires forall n :: n in Fields(t) && n in r1 && n in r2 ==> r1[n] == r2[n]
    ensures Format(t, r1) == Format(t, r2)
    decreases |t|
  {
    if t != [] {
      assert Fields(t[1..]) <= Fields(t);
      FormatDependsOnlyOnFields(t[1..], r1, r2);
    }
  }

  /** Substitution works piece by piece, left to right: rendering two
      templates one after the other renders each in turn. */
  lemma {:induction false} FormatAppend(a: Template, b: Template, row: Row)
    requires Format(a, row).Success? && Format(b, row).Success?
    ensures Format(a + b, row) == Success(Format(a, row).value + Format(b, row).value)
    decreases |a|
  {
    if a == [] {
      assert a + b == b && Format(a, row).value + Format(b, row).value == Format(b, row).value;
    } else {
      assert (a + b)[0] == a[0] && (a + b)[1..] == a[1..] + b;
      assert Format(a[1..], row).Success?;
      FormatAppend(a[1..], b, row);
      var head := if a[0].Lit? then a[0].text else row[a[0].name];
      assert Format(a, row).value == head + Format(a[1..], row).value;
      assert Format(a + b, row) == Success(head + Format(a[1..] + b, row).value);
      assert Format(a + b, row).value == head + (Format(a[1..], row).value + Format(b, row).value);
      assert head + (Format(a[1..], row).value + Format(b, row).value)
          == (head + Format(a[1..], row).value) + Format(b, row).value;
    }
  }
}
