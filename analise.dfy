/**
 * The body of `main` once the two uploaded tables are in memory: clean both,
 * then compute the table behind each of the five charts.
 */
module Analise {
  import opened Seqs
  import opened Grouping
  import opened Records
  import opened Normalize
  import opened Graficos

  /** The data of the five charts `main` draws. */
  datatype Charts = Charts(
    registros: seq<Group<(Date, string)>>,
    tabela: seq<TableRow>,
    etapas: seq<Group<(string, string)>>,
    etapasRepetidas: seq<Group<(string, string)>>,
    convenios: seq<Group<(string, string)>>)

  /**
   * `main` after the upload: the deal table and the dispatch table are
   * cleaned step by step, then each chart's table is computed from them.
   */
  method RunAnalise(hubspot: seq<HubspotRow>, disparos: seq<DisparoRow>) returns (charts: Charts)
    ensures charts.registros == RegistrosPorOrigem(NormalizedLeads(hubspot))
    ensures charts.tabela == TabelaDisparosLeads(NormalizedLeads(hubspot), NormalizedDisparos(disparos))
    ensures charts.etapas == EtapasSemPerda(NormalizedLeads(hubspot)) == charts.etapasRepetidas
    ensures charts.convenios == CpfPorConvenio(NormalizedLeads(hubspot))
    ensures Total(charts.registros) == Total(charts.convenios) == |Filter(hubspot, KeepsLead)|
    ensures Total(charts.etapas) == |Filter(NormalizedLeads(hubspot), NotPerda)|
    ensures forall i :: 0 <= i < |charts.etapas| ==> charts.etapas[i].key.0 != "PERDA"
    ensures forall i :: 0 <= i < |charts.registros| ==>
              && charts.registros[i].key.1 !in ExcludedOrigens
              && charts.registros[i].key.1 != "Whatsapp Grow"
              && Before(Cutoff, charts.registros[i].key.0)
    ensures SortedDesc(charts.tabela)
  {
    var hubspotData := NormalizeHubspot(hubspot);
    var disparosData := NormalizeDisparos(disparos);

    var figura1 := RegistrosPorOrigem(hubspotData);
    var figura2 := TabelaDisparosLeads(hubspotData, disparosData);
    var semPerda := Filter(hubspotData, NotPerda);
    var figura3 := EtapasOrigem(semPerda);
    var perda := Filter(hubspotData, NotPerda);
    var figura4 := EtapasOrigem(perda);
    var figura5 := CpfPorConvenio(hubspotData);

    RegistrosClean(hubspotData);
    charts := Charts(figura1, figura2, figura3, figura4, figura5);
  }

  /** Every (day, channel) bar of chart 1 is from a kept channel, after relabelling, on a day after the cutoff. */
  lemma RegistrosClean(leads: seq<Lead>)
    requires forall l :: l in leads ==> CleanLead(l)
    ensures forall i :: 0 <= i < |RegistrosPorOrigem(leads)| ==>
              && RegistrosPorOrigem(leads)[i].key.1 !in ExcludedOrigens
              && RegistrosPorOrigem(leads)[i].key.1 != "Whatsapp Grow"
              && Before(Cutoff, RegistrosPorOrigem(leads)[i].key.0)
  {
    var r := RegistrosPorOrigem(leads);
    forall i | 0 <= i < |r|
      ensures r[i].key.1 !in ExcludedOrigens && r[i].key.1 != "Whatsapp Grow" && Before(Cutoff, r[i].key.0)
    {
      var h := Having(leads, DataOrigem, r[i].key);
      assert h[0] in leads && DataOrigem(h[0]) == r[i].key;
    }
  }
}
