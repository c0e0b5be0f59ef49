/**
 * The lead-source analysis of the page loader: every fetched lead is labelled
 * "Facebook Ads" when it carries an ad attribution and "Indeterminado" otherwise, and the
 * labels are counted.
 */
module LeadReport {
  import opened JsValues

  const FacebookAds := "Facebook Ads"
  const Indeterminado := "Indeterminado"

  /** A row of the lead query: the five selected columns, each any JavaScript value. */
  datatype Lead = Lead(name: Value, phoneNumber: Value, createdAt: Value,
                       adSourceUrl: Value, adSourceId: Value)

  /** A line of `leadsDetallados`. */
  datatype LeadWithSource = LeadWithSource(name: Value, phoneNumber: Value, createdAt: Value, source: string)

  /** `summary`. */
  datatype Summary = Summary(totalLeads: nat, facebookLeadsCount: nat, otherLeadsCount: nat)

  /** Either attribution column is neither `null`, `undefined` nor the empty string. */
  predicate HasFacebookSource(lead: Lead)
  {
    IsFilled(lead.adSourceUrl) || IsFilled(lead.adSourceId)
  }

  /** The line of one lead: its first three columns and its source label. */
  function WithSource(lead: Lead): (r: LeadWithSource)
    ensures r.source == FacebookAds <==> HasFacebookSource(lead)
    ensures r.source == Indeterminado <==> !HasFacebookSource(lead)
    ensures r.name == lead.name && r.phoneNumber == lead.phoneNumber && r.createdAt == lead.createdAt
  {
    LeadWithSource(lead.name, lead.phoneNumber, lead.createdAt,
                   if HasFacebookSource(lead) then FacebookAds else Indeterminado)
  }

  /** The number of leads with an ad attribution. */
  function CountFacebook(leads: seq<Lead>): (n: nat)
    ensures n <= |leads|
  {
    if |leads| == 0 then 0
    else CountFacebook(leads[..|leads| - 1]) + (if HasFacebookSource(leads[|leads| - 1]) then 1 else 0)
  }

  /** The number of lines whose source is `source`. */
  function CountLabelled(lines: seq<LeadWithSource>, source: string): (n: nat)
    ensures n <= |lines|
  {
    if |lines| == 0 then 0
    else CountLabelled(lines[..|lines| - 1], source) + (if lines[|lines| - 1].source == source then 1 else 0)
  }

  /** The lines of all leads, one per lead, in order. */
  function Classified(leads: seq<Lead>): (lines: seq<LeadWithSource>)
    ensures |lines| == |leads|
    ensures forall i :: 0 <= i < |leads| ==> lines[i] == WithSource(leads[i])
  {
    seq(|leads|, i requires 0 <= i < |leads| => WithSource(leads[i]))
  }

  /** Classifying one more lead appends its line. */
  lemma ClassifiedStep(leads: seq<Lead>, i: nat)
    requires i < |leads|
    ensures Classified(leads[..i + 1]) == Classified(leads[..i]) + [WithSource(leads[i])]
  {
  }

  /**
   * The `allLeads.forEach` pass: push one line per lead and bump the Facebook or the
   * other counter.
   */
  method ClassifyLeads(allLeads: seq<Lead>)
    returns (leadsDetallados: seq<LeadWithSource>, facebookLeadsCount: nat, otherLeadsCount: nat)
    ensures leadsDetallados == Classified(allLeads)
    ensures facebookLeadsCount == CountFacebook(allLeads) == CountLabelled(leadsDetallados, FacebookAds)
    ensures otherLeadsCount == CountLabelled(leadsDetallados, Indeterminado)
    ensures facebookLeadsCount + otherLeadsCount == |allLeads|
  {
    leadsDetallados, facebookLeadsCount, otherLeadsCount := [], 0, 0;
    for i := 0 to |allLeads|
      invariant leadsDetallados == Classified(allLeads[..i])
      invariant facebookLeadsCount == CountFacebook(allLeads[..i])
      invariant facebookLeadsCount + otherLeadsCount == i
    {
      var lead := allLeads[i];
      var hasFacebookSource := IsFilled(lead.adSourceUrl) || IsFilled(lead.adSourceId);
      var leadWithSource := LeadWithSource(lead.name, lead.phoneNumber, lead.createdAt,
                                           if hasFacebookSource then FacebookAds else Indeterminado);
      assert leadWithSource == WithSource(lead);
      ClassifiedStep(allLeads, i);
      assert allLeads[..i + 1][..i] == allLeads[..i];
      leadsDetallados := leadsDetallados + [leadWithSource];
      if hasFacebookSource {
        facebookLeadsCount := facebookLeadsCount + 1;
      } else {
        otherLeadsCount := otherLeadsCount + 1;
      }
    }
    assert allLeads[..|allLeads|] == allLeads;
    LabelsPartition(allLeads);
  }

  /** The summary the loader reports for the counters of the classification pass. */
  function Summarize(facebookLeadsCount: nat, otherLeadsCount: nat): (s: Summary)
    ensures s.totalLeads == s.facebookLeadsCount + s.otherLeadsCount
    ensures s.facebookLeadsCount == facebookLeadsCount && s.otherLeadsCount == otherLeadsCount
  {
    Summary(facebookLeadsCount + otherLeadsCount, facebookLeadsCount, otherLeadsCount)
  }

  /** The summary of the leads `leads`. */
  function SummaryOf(leads: seq<Lead>): (s: Summary)
    ensures s.totalLeads == |leads|
    ensures s.facebookLeadsCount == CountFacebook(leads) && s.otherLeadsCount == |leads| - CountFacebook(leads)
  {
    Summarize(CountFacebook(leads), |leads| - CountFacebook(leads))
  }

  /** The two labels partition the lines: the counts of the two add up to the number of leads. */
  lemma {:induction false} LabelsPartition(leads: seq<Lead>)
    ensures CountLabelled(Classified(leads), FacebookAds) == CountFacebook(leads)
    ensures CountLabelled(Classified(leads), Indeterminado) == |leads| - CountFacebook(leads)
    ensures SummaryOf(leads).totalLeads == |leads| == |Classified(leads)|
  {
    if |leads| > 0 {
      var init := leads[..|leads| - 1];
      LabelsPartition(init);
      assert Classified(leads)[..|init|] == Classified(init);
    }
  }

  /** A lead with an ad id but an empty url counts as "Facebook Ads"; one with neither does not. */
  lemma OneOfEachSource()
    ensures var leads := [Lead(Text("Ana"), Text("555"), Undefined, Text(""), Text("ad-1")),
                          Lead(Text("Luis"), Null, Undefined, Null, Undefined)];
            && Classified(leads) == [LeadWithSource(Text("Ana"), Text("555"), Undefined, FacebookAds),
                                     LeadWithSource(Text("Luis"), Null, Undefined, Indeterminado)]
            && SummaryOf(leads) == Summary(2, 1, 1)
  {
    var leads := [Lead(Text("Ana"), Text("555"), Undefined, Text(""), Text("ad-1")),
                  Lead(Text("Luis"), Null, Undefined, Null, Undefined)];
    assert leads[..1] == [leads[0]] && leads[..1][..0] == [];
    assert CountFacebook(leads) == 1;
  }
}
