/**
 * The partner classifier of the charts: the four named partners keep their
 * names and every other partner name becomes "Other". The raw partner
 * string of a project is never rewritten anywhere else.
 */
module Partners {
  import opened Seqs

  const NAMED_PARTNERS: seq<string> := ["Uber Eats", "Uber Eats ANZ", "Deliveroo", "GrubHub"]

  const OTHER_PARTNER: string := "Other"

  /** `[...NAMED_PARTNERS, "Other"]`: the series of every partner chart. */
  const CHART_PARTNERS: seq<string> := NAMED_PARTNERS + [OTHER_PARTNER]

  /** `partnerGroup(p)`. */
  function PartnerGroup(p: string): (r: string)
    ensures r in CHART_PARTNERS
    ensures p in NAMED_PARTNERS ==> r == p
    ensures p !in NAMED_PARTNERS ==> r == OTHER_PARTNER
  {
    assert CHART_PARTNERS[4] == OTHER_PARTNER;
    if p in NAMED_PARTNERS then p else OTHER_PARTNER
  }

  /** "Other" is not itself a named partner, so it classifies as itself. */
  lemma OtherNotNamed()
    ensures OTHER_PARTNER !in NAMED_PARTNERS
  {
    assert OTHER_PARTNER[0] == 'O';
    assert NAMED_PARTNERS[0][0] == 'U' && NAMED_PARTNERS[1][0] == 'U';
    assert NAMED_PARTNERS[2][0] == 'D' && NAMED_PARTNERS[3][0] == 'G';
  }

  /** The chart series are five different names. */
  lemma ChartPartnersDistinct()
    ensures |CHART_PARTNERS| == 5 && Distinct(CHART_PARTNERS)
  {
    var c := CHART_PARTNERS;
    assert |c[0]| == 9 && |c[1]| == 13;
    assert c[0][0] == 'U' && c[1][0] == 'U' && c[2][0] == 'D' && c[3][0] == 'G' && c[4][0] == 'O';
  }

  /** Classifying is the identity on the chart series, so classifying twice changes nothing. */
  lemma PartnerGroupFixed(pt: string)
    requires pt in CHART_PARTNERS
    ensures PartnerGroup(pt) == pt
  {
    OtherNotNamed();
  }

  lemma PartnerGroupIdempotent(p: string)
    ensures PartnerGroup(PartnerGroup(p)) == PartnerGroup(p)
  {
    PartnerGroupFixed(PartnerGroup(p));
  }
}
