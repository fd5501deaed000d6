/** Two concrete campaigns: three rows, the middle one without an address,
    first with a transport that always delivers, then with one that fails
    on the last row. Extraction here accepts any text containing '@'. */
module DispatchScenarios {
  import opened Wrappers
  import opened Template
  import opened Recipients
  import opened DispatchSpec
  import opened DispatchProperties

  function SampleRows(): seq<Row>
  {
    [ map["Email" := "a@x.com", "Name" := "A"],
      map["Email" := " not-an-email ", "Name" := "B"],
      map["Email" := "c@x.com", "Name" := "C"] ]
  }

  function SampleCampaign(): Campaign
  {
    Campaign("Label_1", [Lit("Hi "), Field("Name")], [Lit("Body "), Field("Name")])
  }

  function SampleEnv(failOn: int): Env
  {
    Env(s => if '@' in s then s else "",
        s => s,
        (i, m) => if i == failOn then SendFailed("quota exceeded") else Delivered(Some("m")),
        (i, id, l) => Labeled)
  }

  lemma SampleAddresses(failOn: int)
    ensures SampleEnv(failOn).extractEmail(RawEmail(SampleRows()[0])) == "a@x.com"
    ensures RawEmail(SampleRows()[1]) == "not-an-email"
    ensures SampleEnv(failOn).extractEmail(RawEmail(SampleRows()[1])) == ""
    ensures SampleEnv(failOn).extractEmail(RawEmail(SampleRows()[2])) == "c@x.com"
  {
    assert !IsSpace('a') && !IsSpace('c') && !IsSpace('m') && !IsSpace('n');
    StripStartKeeps("a@x.com");
    StripEndKeeps("a@x.com");
    StripStartKeeps("c@x.com");
    StripEndKeeps("c@x.com");
    var raw := " not-an-email ";
    assert IsSpace(raw[0]) && raw[1..] == "not-an-email ";
    StripStartKeeps("not-an-email ");
    var t := "not-an-email ";
    assert IsSpace(t[|t| - 1]) && t[..|t| - 1] == "not-an-email";
    StripEndKeeps("not-an-email");
    assert "a@x.com"[1] == '@' && "c@x.com"[1] == '@';
    var r := "not-an-email";
    assert forall k :: 0 <= k < |r| ==> r[k] != '@';
  }

  lemma SampleFormats(k: nat)
    requires k < 3
    ensures Format(SampleCampaign().subject, SampleRows()[k]).Success?
    ensures Format(SampleCampaign().body, SampleRows()[k]).Success?
  {
    var c, row := SampleCampaign(), SampleRows()[k];
    assert Fields(c.subject) == {"Name"} && Fields(c.body) == {"Name"};
    assert "Name" in row;
    FormatSucceedsIff(c.subject, row);
    FormatSucceedsIff(c.body, row);
  }

  lemma SampleOutcomes(failOn: int)
    requires failOn == -1 || failOn == 2
    ensures Process(SampleEnv(failOn), SampleCampaign(), 0, SampleRows()[0]).outcome == Sent
    ensures Process(SampleEnv(failOn), SampleCampaign(), 1, SampleRows()[1]).outcome == Skipped("not-an-email")
    ensures Process(SampleEnv(failOn), SampleCampaign(), 2, SampleRows()[2]).outcome ==
      if failOn == 2 then Failed("c@x.com", "quota exceeded") else Sent
  {
    SampleAddresses(failOn);
    SampleFormats(0);
    SampleFormats(2);
  }

  /** The tallies of three runs, spelled out. */
  lemma TallySent(runs: seq<RowRun>)
    requires |runs| == 3
    ensures SentCount(runs) ==
      (if runs[0].outcome.Sent? then 1 else 0) + (if runs[1].outcome.Sent? then 1 else 0) +
      (if runs[2].outcome.Sent? then 1 else 0)
  {
    AdvanceOne(runs, 0);
    AdvanceOne(runs, 1);
    AdvanceOne(runs, 2);
    assert runs[..0] == [] && runs[..3] == runs;
  }

  lemma TallySkipped(runs: seq<RowRun>)
    requires |runs| == 3 && runs[0].outcome.Sent? && runs[1].outcome.Skipped?
    ensures SkippedOf(runs) ==
      [runs[1].outcome.raw] + (if runs[2].outcome.Skipped? then [runs[2].outcome.raw] else [])
  {
    AdvanceOne(runs, 0);
    AdvanceOne(runs, 1);
    AdvanceOne(runs, 2);
    assert runs[..0] == [] && runs[..3] == runs;
  }

  lemma TallyErrors(runs: seq<RowRun>)
    requires |runs| == 3 && runs[0].outcome.Sent? && runs[1].outcome.Skipped?
    ensures ErrorsOf(runs) ==
      if runs[2].outcome.Failed? then [(runs[2].outcome.addr, runs[2].outcome.reason)] else []
  {
    AdvanceOne(runs, 0);
    AdvanceOne(runs, 1);
    AdvanceOne(runs, 2);
    assert runs[..0] == [] && runs[..3] == runs;
  }

  /** All sends succeed: two sent, the middle row skipped under its stripped
      raw value, no errors. */
  lemma AllDelivered()
    ensures var runs := Runs(SampleEnv(-1), SampleCampaign(), SampleRows());
      SentCount(runs) == 2 && SkippedOf(runs) == ["not-an-email"] && ErrorsOf(runs) == []
  {
    var runs := Runs(SampleEnv(-1), SampleCampaign(), SampleRows());
    SampleOutcomes(-1);
    TallySent(runs);
    TallySkipped(runs);
    TallyErrors(runs);
  }

  /** The send for the last row fails: one sent, one skipped, and the
      failure recorded against c@x.com with the transport's reason. */
  lemma LastSendFails()
    ensures var runs := Runs(SampleEnv(2), SampleCampaign(), SampleRows());
      SentCount(runs) == 1 && SkippedOf(runs) == ["not-an-email"] &&
      ErrorsOf(runs) == [("c@x.com", "quota exceeded")]
  {
    var runs := Runs(SampleEnv(2), SampleCampaign(), SampleRows());
    SampleOutcomes(2);
    TallySent(runs);
    TallySkipped(runs);
    TallyErrors(runs);
  }
}
