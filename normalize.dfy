/**
 * The cleaning steps `main` applies to the two tables before any chart is
 * drawn: the channel filter, the campaign-derived agreement, the space-free
 * dispatch agreement, the creation-date cutoff, the channel relabelling and
 * the product category.
 */
module Normalize {
  import opened Options
  import opened Text
  import opened Seqs
  import opened Classifier
  import opened Records

  /** The channels whose deals are dropped before anything else. */
  const ExcludedOrigens: seq<string> := ["HYPERFLOW", "Tallos", "DISPARO"]

  predicate KeepsOrigem(r: HubspotRow) {
    r.origem !in ExcludedOrigens
  }

  predicate CreatedAfterCutoff(r: HubspotRow) {
    Before(Cutoff, r.dataCriado)
  }

  predicate DispatchAfterCutoff(d: DisparoRow) {
    Before(Cutoff, d.dataCriado)
  }

  /** The deals that survive both selections of `main`. */
  predicate KeepsLead(r: HubspotRow) {
    KeepsOrigem(r) && CreatedAfterCutoff(r)
  }

  /** `Series.replace("Whatsapp Grow", "RCS")`: whole-value replacement of one channel name. */
  function Relabel(origem: string): (o: string)
    ensures o != "Whatsapp Grow"
    ensures o != origem ==> origem == "Whatsapp Grow" && o == "RCS"
  {
    if origem == "Whatsapp Grow" then "RCS" else origem
  }

  function RelabelRow(r: HubspotRow): HubspotRow {
    r.(origem := Relabel(r.origem))
  }

  /** `campanha.split("_")[0].upper()`: the campaign's text before its first `_`, upper-cased. */
  function Convenio(campanha: string): (c: string)
    ensures '_' !in c
    ensures |c| <= |campanha| && c == Upper(campanha[..|c|])
    ensures '_' !in campanha[..|c|]
    ensures |c| < |campanha| ==> campanha[|c|] == '_'
  {
    var prefix := BeforeFirst(campanha, '_');
    UpperKeepsUnderscoreOut(prefix);
    Upper(prefix)
  }

  /** Both derived columns of a deal: the agreement from its campaign and the category from its product. */
  function Enrich(r: HubspotRow): Lead {
    Lead(r, Convenio(r.campanha), Classify(r.produto))
  }

  function NormalizeLead(r: HubspotRow): Lead {
    Enrich(RelabelRow(r))
  }

  /** The deals the charts see: the kept rows, in their order, relabelled and enriched. */
  function NormalizedLeads(raw: seq<HubspotRow>): seq<Lead> {
    Map(Filter(raw, KeepsLead), NormalizeLead)
  }

  /** `str.replace(" ", "")` on the dispatch agreement. */
  function StripConvenio(d: DisparoRow): (d': DisparoRow)
    ensures d' == d.(convenio := d'.convenio)
    ensures ' ' !in d'.convenio && multiset(d'.convenio) == multiset(d.convenio)[' ' := 0]
  {
    d.(convenio := StripSpaces(d.convenio))
  }

  /** The dispatch rows the charts see. */
  function NormalizedDisparos(raw: seq<DisparoRow>): seq<DisparoRow> {
    Filter(Map(raw, StripConvenio), DispatchAfterCutoff)
  }

  /**
   * The deal-table steps of `main`: channel filter, date cutoff, relabelling,
   * then the two derived columns. `main` derives `convenio` between the
   * channel filter and the cutoff; a per-row column reading only `campanha`
   * gives every kept row the same value whichever comes first.
   */
  method NormalizeHubspot(raw: seq<HubspotRow>) returns (leads: seq<Lead>)
    ensures leads == NormalizedLeads(raw)
    ensures |leads| == |Filter(raw, KeepsLead)|
    ensures forall l :: l in leads ==> CleanLead(l)
  {
    var rows := Filter(raw, KeepsOrigem);
    rows := Filter(rows, CreatedAfterCutoff);
    FilterFusion(raw, KeepsOrigem, CreatedAfterCutoff, KeepsLead);
    rows := Map(rows, RelabelRow);
    leads := Map(rows, Enrich);
    MapMap(Filter(raw, KeepsLead), RelabelRow, Enrich, NormalizeLead);
    NormalizedLeadsClean(raw);
  }

  /** Every deal the charts see comes from a kept channel and date, is relabelled and carries both derived columns. */
  lemma NormalizedLeadsClean(raw: seq<HubspotRow>)
    ensures |NormalizedLeads(raw)| == |Filter(raw, KeepsLead)|
    ensures forall l :: l in NormalizedLeads(raw) ==> CleanLead(l)
  {
    var kept := Filter(raw, KeepsLead);
    forall l | l in NormalizedLeads(raw)
      ensures CleanLead(l)
    {
      var i :| 0 <= i < |kept| && l == NormalizeLead(kept[i]);
      NormalizeLeadClean(kept[i]);
    }
  }

  /** What the cleaning steps guarantee of each deal that reaches the charts. */
  predicate CleanLead(l: Lead) {
    && l.row.origem !in ExcludedOrigens
    && l.row.origem != "Whatsapp Grow"
    && Before(Cutoff, l.row.dataCriado)
    && l.convenio == Convenio(l.row.campanha)
    && l.produto2 == Classify(l.row.produto)
  }

  lemma NormalizeLeadClean(r: HubspotRow)
    requires KeepsLead(r)
    ensures CleanLead(NormalizeLead(r))
  {
    assert "RCS" !in ExcludedOrigens;
  }

  /** The dispatch-table steps of `main`: the agreement loses its spaces, then the date cutoff. */
  method NormalizeDisparos(raw: seq<DisparoRow>) returns (ds: seq<DisparoRow>)
    ensures ds == NormalizedDisparos(raw)
    ensures ds == Map(Filter(raw, DispatchAfterCutoff), StripConvenio)
    ensures forall i :: 0 <= i < |ds| ==> ' ' !in ds[i].convenio && Before(Cutoff, ds[i].dataCriado)
  {
    ds := Map(raw, StripConvenio);
    ds := Filter(ds, DispatchAfterCutoff);
    FilterMapCommute(raw, StripConvenio, DispatchAfterCutoff, DispatchAfterCutoff);
  }

  // ------------------------------------------------------------------ properties

  /**
   * Deal i of the charts is kept row i, with every column as it was except the
   * relabelled channel, and with its agreement and category derived from it.
   */
  lemma NormalizedLeadsKeepColumns(raw: seq<HubspotRow>)
    ensures |NormalizedLeads(raw)| == |Filter(raw, KeepsLead)|
    ensures forall i :: 0 <= i < |NormalizedLeads(raw)| ==>
              var r := Filter(raw, KeepsLead)[i];
              && NormalizedLeads(raw)[i].row == r.(origem := Relabel(r.origem))
              && NormalizedLeads(raw)[i].convenio == Convenio(r.campanha)
              && NormalizedLeads(raw)[i].produto2 == Classify(r.produto)
  {
  }

  /** The channel filter drops every copy of a row from an excluded channel and keeps every copy of any other row. */
  lemma ChannelFilterExact(raw: seq<HubspotRow>, r: HubspotRow)
    ensures multiset(Filter(raw, KeepsOrigem))[r]
            == if r.origem in ["HYPERFLOW", "Tallos", "DISPARO"] then 0 else multiset(raw)[r]
  {
    FilterMultiset(raw, KeepsOrigem, r);
  }

  /** The channel filter keeps the rows in their order: it distributes over any split of the table. */
  lemma ChannelFilterKeepsOrder(a: seq<HubspotRow>, b: seq<HubspotRow>)
    ensures Filter(a + b, KeepsOrigem) == Filter(a, KeepsOrigem) + Filter(b, KeepsOrigem)
  {
    FilterAppend(a, b, KeepsOrigem);
  }

  /** A row created on the cutoff day itself is dropped; one created the next day is kept. */
  lemma CutoffIsStrict(r: HubspotRow, d: DisparoRow)
    ensures !CreatedAfterCutoff(r.(dataCriado := Date(2025, 2, 10)))
    ensures CreatedAfterCutoff(r.(dataCriado := Date(2025, 2, 11)))
    ensures !DispatchAfterCutoff(d.(dataCriado := Date(2025, 2, 10)))
    ensures DispatchAfterCutoff(d.(dataCriado := Date(2025, 2, 11)))
  {
  }

  /** Relabelling twice is relabelling once, and only "Whatsapp Grow" is touched. */
  lemma RelabelIdempotent(o: string)
    ensures Relabel(Relabel(o)) == Relabel(o)
    ensures o != "Whatsapp Grow" ==> Relabel(o) == o
  {
  }

  /** "ABC_123_xyz" yields the agreement "ABC"; a campaign without `_` yields all of it, upper-cased. */
  lemma ConvenioExamples()
    ensures Convenio("ABC_123_xyz") == "ABC"
    ensures Convenio("abc") == "ABC"
  {
    assert BeforeFirst("ABC_123_xyz", '_') == "ABC" by {
      assert "ABC_123_xyz"[1..][1..][1..] == "_123_xyz";
    }
    assert Upper("ABC") == "ABC";
    assert BeforeFirst("abc", '_') == "abc" by {
      assert "abc"[1..][1..][1..] == "";
    }
    assert Upper("abc") == "ABC";
  }

  /** The agreement is all of the campaign, upper-cased, exactly when the campaign has no `_`. */
  lemma ConvenioWhole(campanha: string)
    ensures |Convenio(campanha)| == |campanha| <==> '_' !in campanha
  {
    var c := Convenio(campanha);
    if |c| < |campanha| {
      assert campanha[|c|] == '_';
    } else {
      assert campanha[..|c|] == campanha;
    }
  }

  /** Deleting spaces leaves tabs and every other character alone, in order, and twice is once. */
  lemma StripConvenioKeepsOtherCharacters(a: string, b: string)
    ensures StripSpaces(a + b) == StripSpaces(a) + StripSpaces(b)
    ensures StripSpaces(StripSpaces(a)) == StripSpaces(a)
    ensures StripSpaces("\t") == "\t" && StripSpaces(" ") == ""
  {
    StripSpacesAppend(a, b);
    StripSpacesNoSpace(StripSpaces(a));
  }
}
