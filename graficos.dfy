/**
 * The tables behind the charts: row counts per (day, channel), per (stage,
 * channel) and per (agreement, channel), and the dispatch/lead table that
 * joins the lead counts with the dispatch batches, totals them per
 * (agreement, category), attaches the lead percentage and sorts by it.
 */
module Graficos {
  import opened Seqs
  import opened Grouping
  import opened Classifier
  import opened Records

  // ------------------------------------------------------------------ group-and-count views

  /** `groupby(f)[col].size()` on a table: one group per distinct key present, with its number of rows. */
  function CountRows<T, K(==)>(rows: seq<T>, f: T -> K): (r: seq<Group<K>>)
    ensures Distinct(Keys(r))
    ensures forall i :: 0 <= i < |r| ==> r[i].size == |Having(rows, f, r[i].key)| && r[i].size >= 1
    ensures forall n :: 0 <= n < |rows| ==> f(rows[n]) in Keys(r)
    ensures Total(r) == |rows|
  {
    var r := CountBy(Map(rows, f));
    CountRowsSizes(rows, f, r);
    r
  }

  lemma CountRowsSizes<T, K>(rows: seq<T>, f: T -> K, r: seq<Group<K>>)
    requires IsCountOf(r, Map(rows, f))
    ensures forall i :: 0 <= i < |r| ==> r[i].size == |Having(rows, f, r[i].key)|
    ensures forall n :: 0 <= n < |rows| ==> f(rows[n]) in Keys(r)
  {
    forall i | 0 <= i < |r|
      ensures r[i].size == |Having(rows, f, r[i].key)|
    {
      HavingCount(rows, f, r[i].key);
    }
    forall n | 0 <= n < |rows|
      ensures f(rows[n]) in Keys(r)
    {
      assert Map(rows, f)[n] == f(rows[n]);
    }
  }

  function DataOrigem(l: Lead): (Date, string) {
    (l.row.dataCriado, l.row.origem)
  }

  function EtapaOrigem(l: Lead): (string, string) {
    (l.row.etapa, l.row.origem)
  }

  function ConvenioOrigem(l: Lead): (string, string) {
    (l.convenio, l.row.origem)
  }

  /** Chart 1: deals per (creation day, channel). */
  function RegistrosPorOrigem(leads: seq<Lead>): (r: seq<Group<(Date, string)>>)
    ensures Distinct(Keys(r))
    ensures forall i :: 0 <= i < |r| ==> r[i].size == |Having(leads, DataOrigem, r[i].key)| && r[i].size >= 1
    ensures forall n :: 0 <= n < |leads| ==> DataOrigem(leads[n]) in Keys(r)
    ensures Total(r) == |leads|
  {
    CountRows(leads, DataOrigem)
  }

  /** Deals per (stage, channel), every stage included. */
  function EtapasOrigem(leads: seq<Lead>): (r: seq<Group<(string, string)>>)
    ensures Distinct(Keys(r))
    ensures forall i :: 0 <= i < |r| ==> r[i].size == |Having(leads, EtapaOrigem, r[i].key)| && r[i].size >= 1
    ensures forall n :: 0 <= n < |leads| ==> EtapaOrigem(leads[n]) in Keys(r)
    ensures Total(r) == |leads|
  {
    CountRows(leads, EtapaOrigem)
  }

  /** Deals per (agreement, channel). */
  function CpfPorConvenio(leads: seq<Lead>): (r: seq<Group<(string, string)>>)
    ensures Distinct(Keys(r))
    ensures forall i :: 0 <= i < |r| ==> r[i].size == |Having(leads, ConvenioOrigem, r[i].key)| && r[i].size >= 1
    ensures forall n :: 0 <= n < |leads| ==> ConvenioOrigem(leads[n]) in Keys(r)
    ensures Total(r) == |leads|
  {
    CountRows(leads, ConvenioOrigem)
  }

  predicate NotPerda(l: Lead) {
    l.row.etapa != "PERDA"
  }

  /**
   * The stage view of `main`: the lost deals are dropped first, so no group
   * has stage PERDA, every other (stage, channel) keeps the count it has in
   * the unfiltered view, and the counts add up to the non-PERDA deals.
   */
  function EtapasSemPerda(leads: seq<Lead>): (r: seq<Group<(string, string)>>)
    ensures Distinct(Keys(r))
    ensures forall i :: 0 <= i < |r| ==> r[i].key.0 != "PERDA"
    ensures forall i :: 0 <= i < |r| ==> r[i].size == |Having(leads, EtapaOrigem, r[i].key)| && r[i].size >= 1
    ensures forall n :: 0 <= n < |leads| && NotPerda(leads[n]) ==> EtapaOrigem(leads[n]) in Keys(r)
    ensures Total(r) == |Filter(leads, NotPerda)|
  {
    var r := EtapasOrigem(Filter(leads, NotPerda));
    EtapasSemPerdaCounts(leads, r);
    r
  }

  lemma EtapasSemPerdaCounts(leads: seq<Lead>, r: seq<Group<(string, string)>>)
    requires r == EtapasOrigem(Filter(leads, NotPerda))
    ensures forall i :: 0 <= i < |r| ==> r[i].key.0 != "PERDA" && r[i].size == |Having(leads, EtapaOrigem, r[i].key)|
    ensures forall n :: 0 <= n < |leads| && NotPerda(leads[n]) ==> EtapaOrigem(leads[n]) in Keys(r)
  {
    forall i | 0 <= i < |r|
      ensures r[i].key.0 != "PERDA" && r[i].size == |Having(leads, EtapaOrigem, r[i].key)|
    {
      SemPerdaGroup(leads, r[i].key, r[i].size);
    }
    forall n | 0 <= n < |leads| && NotPerda(leads[n])
      ensures EtapaOrigem(leads[n]) in Keys(r)
    {
      SemPerdaKept(leads, n, r);
    }
  }

  lemma SemPerdaGroup(leads: seq<Lead>, k: (string, string), size: nat)
    requires size == |Having(Filter(leads, NotPerda), EtapaOrigem, k)| && size >= 1
    ensures k.0 != "PERDA" && size == |Having(leads, EtapaOrigem, k)|
  {
    var h := Having(Filter(leads, NotPerda), EtapaOrigem, k);
    assert h[0] in Filter(leads, NotPerda);
    HavingFilter(leads, NotPerda, EtapaOrigem, k);
  }

  lemma SemPerdaKept(leads: seq<Lead>, n: nat, r: seq<Group<(string, string)>>)
    requires n < |leads| && NotPerda(leads[n])
    requires forall j :: 0 <= j < |Filter(leads, NotPerda)| ==> EtapaOrigem(Filter(leads, NotPerda)[j]) in Keys(r)
    ensures EtapaOrigem(leads[n]) in Keys(r)
  {
    var kept := Filter(leads, NotPerda);
    assert leads[n] in kept;
    var j :| 0 <= j < |kept| && kept[j] == leads[n];
  }

  predicate IsPerda(l: Lead) {
    l.row.etapa == "PERDA"
  }

  /** The stage view of `main` counts every deal but the lost ones: with the PERDA deals it makes up all deals. */
  lemma EtapasSemPerdaPlusPerda(leads: seq<Lead>)
    ensures Total(EtapasSemPerda(leads)) + |Filter(leads, IsPerda)| == |leads|
  {
    FilterPartition(leads, NotPerda, IsPerda);
  }

  /** The view without the filter does show lost deals: a PERDA deal gives a PERDA group. */
  lemma EtapasOrigemKeepsPerda(leads: seq<Lead>, n: nat)
    requires n < |leads| && leads[n].row.etapa == "PERDA"
    ensures ("PERDA", leads[n].row.origem) in Keys(EtapasOrigem(leads))
    ensures forall k: (string, string) :: k in Keys(EtapasSemPerda(leads)) ==> k.0 != "PERDA"
  {
    var r := EtapasSemPerda(leads);
    forall k: (string, string) | k in Keys(r) ensures k.0 != "PERDA" {
      var i :| 0 <= i < |r| && Keys(r)[i] == k;
    }
  }

  // ------------------------------------------------------------------ dispatch/lead join

  /** The join key: creation day, agreement, product category text and channel. */
  type JoinKey = (Date, string, string, string)

  function LeadKeyOf(l: Lead): JoinKey {
    (l.row.dataCriado, l.convenio, Label(l.produto2), l.row.origem)
  }

  function DisparoKeyOf(d: DisparoRow): JoinKey {
    (d.dataCriado, d.convenio, d.produto2, d.origem)
  }

  /** Leads per join key, as `groupby([...])['id'].size()` names the count `leads`. */
  function LeadGroups(leads: seq<Lead>): (r: seq<Group<JoinKey>>)
    ensures Distinct(Keys(r))
    ensures forall i :: 0 <= i < |r| ==> r[i].size == |Having(leads, LeadKeyOf, r[i].key)| && r[i].size >= 1
    ensures forall n :: 0 <= n < |leads| ==> LeadKeyOf(leads[n]) in Keys(r)
    ensures Total(r) == |leads|
  {
    CountRows(leads, LeadKeyOf)
  }

  /** One row of the inner merge: a lead group's key and count beside one dispatch batch's size. */
  datatype JoinedRow = JoinedRow(key: JoinKey, leads: nat, quantidade: int)

  /** The merged row a lead group forms with one dispatch batch: the group's key and count beside the batch size. */
  function JoinWith(g: Group<JoinKey>): DisparoRow -> JoinedRow {
    (d: DisparoRow) => JoinedRow(g.key, g.size, d.quantidade)
  }

  /**
   * The merge rows one lead group produces: one per dispatch batch with the
   * same key, in dispatch order, each carrying that batch's size.
   */
  function MatchesOf(g: Group<JoinKey>, ds: seq<DisparoRow>): (r: seq<JoinedRow>)
    ensures r == Map(Having(ds, DisparoKeyOf, g.key), JoinWith(g))
    ensures |r| == |Having(ds, DisparoKeyOf, g.key)|
    ensures forall n :: 0 <= n < |r| ==> r[n].key == g.key && r[n].leads == g.size
  {
    if ds == [] then []
    else if DisparoKeyOf(ds[0]) == g.key then
      MapCons(ds[0], Having(ds[1..], DisparoKeyOf, g.key), JoinWith(g));
      [JoinedRow(g.key, g.size, ds[0].quantidade)] + MatchesOf(g, ds[1..])
    else MatchesOf(g, ds[1..])
  }

  /** Each of a group's merge rows carries the size of one dispatch batch with the group's key. */
  lemma MatchesOfSound(g: Group<JoinKey>, ds: seq<DisparoRow>, n: nat)
    requires n < |MatchesOf(g, ds)|
    ensures exists m :: 0 <= m < |ds| && DisparoKeyOf(ds[m]) == g.key
                        && MatchesOf(g, ds)[n] == JoinedRow(g.key, g.size, ds[m].quantidade)
  {
    var d := Having(ds, DisparoKeyOf, g.key)[n];
    assert MatchesOf(g, ds)[n] == JoinWith(g)(d);
    var m :| 0 <= m < |ds| && ds[m] == d;
  }

  /** `merge(..., how='inner')`: for each lead group in order, its matches among the dispatch batches. */
  function Merge(gs: seq<Group<JoinKey>>, ds: seq<DisparoRow>): (r: seq<JoinedRow>)
    ensures forall n :: 0 <= n < |r| ==> r[n].key in Keys(gs) && r[n].key in Map(ds, DisparoKeyOf)
  {
    if gs == [] then []
    else
      var here := MatchesOf(gs[0], ds);
      var rest := Merge(gs[1..], ds);
      MatchesInDisparos(gs[0], ds);
      assert Keys(gs[1..]) == Keys(gs)[1..];
      here + rest
  }

  lemma MatchesInDisparos(g: Group<JoinKey>, ds: seq<DisparoRow>)
    ensures forall n :: 0 <= n < |MatchesOf(g, ds)| ==> MatchesOf(g, ds)[n].key in Map(ds, DisparoKeyOf)
  {
    forall n | 0 <= n < |MatchesOf(g, ds)| ensures MatchesOf(g, ds)[n].key in Map(ds, DisparoKeyOf) {
      MatchesOfSound(g, ds, n);
      var m :| 0 <= m < |ds| && DisparoKeyOf(ds[m]) == g.key
               && MatchesOf(g, ds)[n] == JoinedRow(g.key, g.size, ds[m].quantidade);
      assert Map(ds, DisparoKeyOf)[m] == g.key;
    }
  }

  /** Every merged row pairs a lead group with a dispatch batch of the same key. */
  lemma {:induction false} MergeSound(gs: seq<Group<JoinKey>>, ds: seq<DisparoRow>, n: nat)
    requires n < |Merge(gs, ds)|
    ensures exists i, m :: 0 <= i < |gs| && 0 <= m < |ds| && DisparoKeyOf(ds[m]) == gs[i].key
                           && Merge(gs, ds)[n] == JoinedRow(gs[i].key, gs[i].size, ds[m].quantidade)
  {
    var here := MatchesOf(gs[0], ds);
    if n < |here| {
      MatchesOfSound(gs[0], ds, n);
      assert Merge(gs, ds)[n] == here[n];
    } else {
      MergeSound(gs[1..], ds, n - |here|);
      var i, m :| 0 <= i < |gs| - 1 && 0 <= m < |ds| && DisparoKeyOf(ds[m]) == gs[1..][i].key
                  && Merge(gs[1..], ds)[n - |here|] == JoinedRow(gs[1..][i].key, gs[1..][i].size, ds[m].quantidade);
      assert gs[1..][i] == gs[i + 1];
    }
  }

  /** Every lead group and dispatch batch with the same key meet in the merge. */
  lemma {:induction false} MergeComplete(gs: seq<Group<JoinKey>>, ds: seq<DisparoRow>, i: nat, m: nat)
    requires i < |gs| && m < |ds| && DisparoKeyOf(ds[m]) == gs[i].key
    ensures JoinedRow(gs[i].key, gs[i].size, ds[m].quantidade) in Merge(gs, ds)
  {
    if i == 0 {
      MatchesOfComplete(gs[0], ds, m);
    } else {
      MergeComplete(gs[1..], ds, i - 1, m);
    }
  }

  lemma {:induction false} MatchesOfComplete(g: Group<JoinKey>, ds: seq<DisparoRow>, m: nat)
    requires m < |ds| && DisparoKeyOf(ds[m]) == g.key
    ensures JoinedRow(g.key, g.size, ds[m].quantidade) in MatchesOf(g, ds)
  {
    if m > 0 {
      MatchesOfComplete(g, ds[1..], m - 1);
    }
  }

  /** The merge is empty exactly when no lead group shares its key with a dispatch batch. */
  lemma MergeEmptyIff(gs: seq<Group<JoinKey>>, ds: seq<DisparoRow>)
    ensures Merge(gs, ds) == [] <==>
            forall i, m :: 0 <= i < |gs| && 0 <= m < |ds| ==> DisparoKeyOf(ds[m]) != gs[i].key
  {
    if Merge(gs, ds) != [] {
      MergeSound(gs, ds, 0);
    }
    forall i, m | 0 <= i < |gs| && 0 <= m < |ds| && DisparoKeyOf(ds[m]) == gs[i].key
      ensures Merge(gs, ds) != []
    {
      MergeComplete(gs, ds, i, m);
    }
  }

  function KeyOfJoined(j: JoinedRow): JoinKey {
    j.key
  }

  /**
   * The merged rows of one lead group's key are exactly that group's matches:
   * a group whose key k dispatch batches share appears k times, with its lead
   * count each time.
   */
  lemma {:induction false} MergeMultiplicity(gs: seq<Group<JoinKey>>, ds: seq<DisparoRow>, i: nat)
    requires Distinct(Keys(gs)) && i < |gs|
    ensures Having(Merge(gs, ds), KeyOfJoined, gs[i].key) == MatchesOf(gs[i], ds)
    ensures |Having(Merge(gs, ds), KeyOfJoined, gs[i].key)| == |Having(ds, DisparoKeyOf, gs[i].key)|
    ensures forall n :: 0 <= n < |Having(Merge(gs, ds), KeyOfJoined, gs[i].key)| ==>
              Having(Merge(gs, ds), KeyOfJoined, gs[i].key)[n].leads == gs[i].size
  {
    var k := gs[i].key;
    var here := MatchesOf(gs[0], ds);
    var rest := Merge(gs[1..], ds);
    HavingAppend(here, rest, KeyOfJoined, k);
    assert Keys(gs[1..]) == Keys(gs)[1..];
    if i == 0 {
      HavingAll(here, KeyOfJoined, k);
      forall n | 0 <= n < |rest| ensures KeyOfJoined(rest[n]) != k {
        assert rest[n].key in Keys(gs[1..]);
        var j :| 0 <= j < |gs| - 1 && Keys(gs[1..])[j] == rest[n].key;
        assert Keys(gs)[0] != Keys(gs)[j + 1];
      }
      HavingNone(rest, KeyOfJoined, k);
    } else {
      assert Keys(gs)[0] != Keys(gs)[i];
      HavingNone(here, KeyOfJoined, k);
      MergeMultiplicity(gs[1..], ds, i - 1);
      assert gs[1..][i - 1] == gs[i];
    }
  }

  // ------------------------------------------------------------------ totals per (agreement, category)

  type Pair = (string, string)

  function PairOfKey(k: JoinKey): Pair {
    (k.1, k.2)
  }

  function PairOf(j: JoinedRow): Pair {
    PairOfKey(j.key)
  }

  function QuantidadeOf(j: JoinedRow): int {
    j.quantidade
  }

  function LeadsOf(j: JoinedRow): int {
    j.leads
  }

  /**
   * `groupby(['convenio', 'produto2'])[['quantidade', 'leads']].sum()`: each
   * pair present once, with the batch sizes and the lead counts of its merged
   * rows added up.
   */
  function TotaisPorPar(js: seq<JoinedRow>): (r: seq<Sums<Pair>>)
    ensures Distinct(SumKeys(r))
    ensures forall i :: 0 <= i < |r| ==>
              && r[i].a == SumOf(Having(js, PairOf, r[i].key), QuantidadeOf)
              && r[i].b == SumOf(Having(js, PairOf, r[i].key), LeadsOf)
              && |Having(js, PairOf, r[i].key)| > 0
    ensures forall n :: 0 <= n < |js| ==> PairOf(js[n]) in SumKeys(r)
  {
    var r := SumBy(js, PairOf, QuantidadeOf, LeadsOf);
    assert forall i :: 0 <= i < |r| ==> SumsOfRows(r[i], js, PairOf, QuantidadeOf, LeadsOf);
    r
  }

  /** The leads a pair collects: each lead group of that pair, counted once per dispatch batch it meets. */
  function WeightedLeads(gs: seq<Group<JoinKey>>, ds: seq<DisparoRow>, p: Pair): int {
    if gs == [] then 0
    else (if PairOfKey(gs[0].key) == p then gs[0].size * |Having(ds, DisparoKeyOf, gs[0].key)| else 0)
         + WeightedLeads(gs[1..], ds, p)
  }

  lemma MatchesLeads(g: Group<JoinKey>, ds: seq<DisparoRow>, p: Pair)
    ensures SumOf(Having(MatchesOf(g, ds), PairOf, p), LeadsOf)
            == if PairOfKey(g.key) == p then g.size * |Having(ds, DisparoKeyOf, g.key)| else 0
  {
    var here := MatchesOf(g, ds);
    if PairOfKey(g.key) == p {
      HavingAll(here, PairOf, p);
      SumOfConst(here, LeadsOf, g.size);
    } else {
      HavingNone(here, PairOf, p);
    }
  }

  /** The lead total of a pair adds every matching lead group's count once per dispatch batch it meets. */
  lemma {:induction false} MergeLeads(gs: seq<Group<JoinKey>>, ds: seq<DisparoRow>, p: Pair)
    ensures SumOf(Having(Merge(gs, ds), PairOf, p), LeadsOf) == WeightedLeads(gs, ds, p)
  {
    if gs != [] {
      var here := MatchesOf(gs[0], ds);
      var rest := Merge(gs[1..], ds);
      HavingAppend(here, rest, PairOf, p);
      SumOfAppend(Having(here, PairOf, p), Having(rest, PairOf, p), LeadsOf);
      MatchesLeads(gs[0], ds, p);
      MergeLeads(gs[1..], ds, p);
    }
  }

  function DisparoQuantidade(d: DisparoRow): int {
    d.quantidade
  }

  /**
   * The batch sizes a pair collects, read off the dispatch table alone: the
   * sizes of the batches with that pair whose key is one of `keys`.
   */
  function BatchQuantidade(keys: seq<JoinKey>, ds: seq<DisparoRow>, p: Pair): int {
    if ds == [] then 0
    else (if DisparoKeyOf(ds[0]) in keys && PairOfKey(DisparoKeyOf(ds[0])) == p then ds[0].quantidade else 0)
         + BatchQuantidade(keys, ds[1..], p)
  }

  lemma {:induction false} JoinQuantidade(g: Group<JoinKey>, s: seq<DisparoRow>)
    ensures SumOf(Map(s, JoinWith(g)), QuantidadeOf) == SumOf(s, DisparoQuantidade)
  {
    if s != [] {
      JoinQuantidade(g, s[1..]);
      assert Map(s, JoinWith(g))[1..] == Map(s[1..], JoinWith(g));
    }
  }

  lemma MatchesQuantidade(g: Group<JoinKey>, ds: seq<DisparoRow>, p: Pair)
    ensures SumOf(Having(MatchesOf(g, ds), PairOf, p), QuantidadeOf)
            == if PairOfKey(g.key) == p then SumOf(Having(ds, DisparoKeyOf, g.key), DisparoQuantidade) else 0
  {
    var here := MatchesOf(g, ds);
    if PairOfKey(g.key) == p {
      HavingAll(here, PairOf, p);
      JoinQuantidade(g, Having(ds, DisparoKeyOf, g.key));
    } else {
      HavingNone(here, PairOf, p);
    }
  }

  lemma {:induction false} BatchQuantidadeNone(ds: seq<DisparoRow>, p: Pair)
    ensures BatchQuantidade([], ds, p) == 0
  {
    if ds != [] {
      BatchQuantidadeNone(ds[1..], p);
    }
  }

  /** The batches of a key set with one more key are that key's batches plus the others. */
  lemma {:induction false} BatchQuantidadeSplit(k: JoinKey, rest: seq<JoinKey>, ds: seq<DisparoRow>, p: Pair)
    requires k !in rest
    ensures BatchQuantidade([k] + rest, ds, p)
            == (if PairOfKey(k) == p then SumOf(Having(ds, DisparoKeyOf, k), DisparoQuantidade) else 0)
               + BatchQuantidade(rest, ds, p)
  {
    if ds != [] {
      BatchQuantidadeSplit(k, rest, ds[1..], p);
      var x := DisparoKeyOf(ds[0]);
      assert (x in [k] + rest) == (x == k || x in rest);
      var head := if x == k then [ds[0]] else [];
      assert Having(ds, DisparoKeyOf, k) == head + Having(ds[1..], DisparoKeyOf, k);
      SumOfAppend(head, Having(ds[1..], DisparoKeyOf, k), DisparoQuantidade);
    }
  }

  /** Only which keys are listed matters, not their order or repetition. */
  lemma {:induction false} BatchQuantidadeSameKeys(a: seq<JoinKey>, b: seq<JoinKey>, ds: seq<DisparoRow>, p: Pair)
    requires forall k :: k in a <==> k in b
    ensures BatchQuantidade(a, ds, p) == BatchQuantidade(b, ds, p)
  {
    if ds != [] {
      BatchQuantidadeSameKeys(a, b, ds[1..], p);
    }
  }

  /**
   * The batch total of a pair adds the size of every dispatch batch with that
   * pair whose key some lead group has, each batch once.
   */
  lemma {:induction false} MergeQuantidade(gs: seq<Group<JoinKey>>, ds: seq<DisparoRow>, p: Pair)
    requires Distinct(Keys(gs))
    ensures SumOf(Having(Merge(gs, ds), PairOf, p), QuantidadeOf) == BatchQuantidade(Keys(gs), ds, p)
  {
    if gs == [] {
      BatchQuantidadeNone(ds, p);
      assert Keys(gs) == [];
    } else {
      MergeHeadQuantidade(gs, ds, p);
      KeysCons(gs);
      MergeQuantidade(gs[1..], ds, p);
      BatchQuantidadeSplit(gs[0].key, Keys(gs[1..]), ds, p);
    }
  }

  lemma MergeHeadQuantidade(gs: seq<Group<JoinKey>>, ds: seq<DisparoRow>, p: Pair)
    requires gs != []
    ensures SumOf(Having(Merge(gs, ds), PairOf, p), QuantidadeOf)
            == (if PairOfKey(gs[0].key) == p then SumOf(Having(ds, DisparoKeyOf, gs[0].key), DisparoQuantidade) else 0)
               + SumOf(Having(Merge(gs[1..], ds), PairOf, p), QuantidadeOf)
  {
    var here := MatchesOf(gs[0], ds);
    var rest := Merge(gs[1..], ds);
    HavingAppend(here, rest, PairOf, p);
    SumOfAppend(Having(here, PairOf, p), Having(rest, PairOf, p), QuantidadeOf);
    MatchesQuantidade(gs[0], ds, p);
  }

  /** The lead groups' keys are exactly the keys of the deals. */
  lemma LeadGroupKeys(leads: seq<Lead>)
    ensures forall k :: k in Keys(LeadGroups(leads)) <==> k in Map(leads, LeadKeyOf)
  {
    var gs := LeadGroups(leads);
    forall k | k in Keys(gs) ensures k in Map(leads, LeadKeyOf) {
      var i :| 0 <= i < |gs| && Keys(gs)[i] == k;
      var l := Having(leads, LeadKeyOf, k)[0];
      var n :| 0 <= n < |leads| && leads[n] == l;
      assert Map(leads, LeadKeyOf)[n] == k;
    }
    forall k | k in Map(leads, LeadKeyOf) ensures k in Keys(gs) {
      var n :| 0 <= n < |leads| && Map(leads, LeadKeyOf)[n] == k;
    }
  }

  /** Every merged row carries a lead count of at least one. */
  lemma MergeLeadsPositive(gs: seq<Group<JoinKey>>, ds: seq<DisparoRow>)
    requires forall i :: 0 <= i < |gs| ==> gs[i].size >= 1
    ensures forall n :: 0 <= n < |Merge(gs, ds)| ==> Merge(gs, ds)[n].leads >= 1
  {
    forall n | 0 <= n < |Merge(gs, ds)| ensures Merge(gs, ds)[n].leads >= 1 {
      MergeSound(gs, ds, n);
    }
  }

  lemma {:induction false} SumOfPositive<T>(rows: seq<T>, f: T -> int)
    requires rows != [] && forall n :: 0 <= n < |rows| ==> f(rows[n]) >= 1
    ensures SumOf(rows, f) >= 1
  {
    if |rows| > 1 {
      SumOfPositive(rows[1..], f);
    }
  }

  // ------------------------------------------------------------------ percentage and order

  /**
   * `leads / quantidade * 100` on float columns: an exact percentage when the
   * batches are non-empty; a division by zero gives +inf, -inf or NaN by the
   * sign of the leads.
   */
  datatype Proportion = Percent(value: real) | PosInfinity | NegInfinity | NotANumber

  function ProportionOf(leads: int, quantidade: int): (p: Proportion)
    ensures p.Percent? <==> quantidade != 0
    ensures p.Percent? ==> p.value * quantidade as real == 100.0 * leads as real
    ensures quantidade == 0 ==> (p.PosInfinity? <==> leads > 0) && (p.NotANumber? <==> leads == 0)
  {
    if quantidade != 0 then Percent(100.0 * leads as real / quantidade as real)
    else if leads > 0 then PosInfinity
    else if leads < 0 then NegInfinity
    else NotANumber
  }

  /** One line of the dispatch/lead table. */
  datatype TableRow = TableRow(convenio: string, produto2: string, quantidade: int, leads: int, proporcao: Proportion)

  function WithProportion(t: Sums<Pair>): (row: TableRow)
    ensures row.proporcao == ProportionOf(row.leads, row.quantidade)
  {
    TableRow(t.key.0, t.key.1, t.a, t.b, ProportionOf(t.b, t.a))
  }

  /** Position of a value in a descending sort with NaN last: +inf, then numbers, then -inf, then NaN. */
  function Tier(p: Proportion): int {
    match p
    case PosInfinity => 3
    case Percent(_) => 2
    case NegInfinity => 1
    case NotANumber => 0
  }

  /** `p` may be listed before `q` in `sort_values(ascending=False)`. */
  predicate AtLeast(p: Proportion, q: Proportion) {
    Tier(p) > Tier(q) || (Tier(p) == Tier(q) && (p.Percent? ==> p.value >= q.value))
  }

  /** The order is total and transitive, so a descending arrangement exists for every table. */
  lemma AtLeastTotalOrder(p: Proportion, q: Proportion, s: Proportion)
    ensures AtLeast(p, q) || AtLeast(q, p)
    ensures AtLeast(p, q) && AtLeast(q, s) ==> AtLeast(p, s)
    ensures AtLeast(p, p)
  {
  }

  predicate SortedDesc(rows: seq<TableRow>) {
    forall i, j :: 0 <= i < j < |rows| ==> AtLeast(rows[i].proporcao, rows[j].proporcao)
  }

  function Insert(x: TableRow, s: seq<TableRow>): (r: seq<TableRow>)
    requires SortedDesc(s)
    ensures SortedDesc(r)
    ensures multiset(r) == multiset(s) + multiset{x}
    ensures |r| == |s| + 1
  {
    if s == [] then [x]
    else if AtLeast(x.proporcao, s[0].proporcao) then
      assert forall j :: 0 < j < |s| ==> AtLeast(s[0].proporcao, s[j].proporcao);
      [x] + s
    else
      var rest := Insert(x, s[1..]);
      assert s == [s[0]] + s[1..];
      HeadAtLeastRest(s, x, rest);
      [s[0]] + rest
  }

  lemma HeadAtLeastRest(s: seq<TableRow>, x: TableRow, rest: seq<TableRow>)
    requires SortedDesc(s) && SortedDesc(rest) && s != [] && !AtLeast(x.proporcao, s[0].proporcao)
    requires multiset(rest) == multiset(s[1..]) + multiset{x}
    ensures SortedDesc([s[0]] + rest)
  {
    forall j | 0 <= j < |rest|
      ensures AtLeast(s[0].proporcao, rest[j].proporcao)
    {
      assert rest[j] in multiset(rest);
      if rest[j] != x {
        assert rest[j] in multiset(s[1..]);
        var k :| 0 <= k < |s| - 1 && s[1..][k] == rest[j];
        assert s[k + 1] == rest[j];
      }
    }
    var r := [s[0]] + rest;
    forall i, j | 0 <= i < j < |r|
      ensures AtLeast(r[i].proporcao, r[j].proporcao)
    {
      if i > 0 {
        assert r[i] == rest[i - 1] && r[j] == rest[j - 1];
      } else {
        assert r[j] == rest[j - 1];
      }
    }
  }

  /** `sort_values(by='proporcao %', ascending=False)`: the same rows, largest percentage first. */
  function SortDesc(s: seq<TableRow>): (r: seq<TableRow>)
    ensures SortedDesc(r)
    ensures multiset(r) == multiset(s)
    ensures |r| == |s|
  {
    if s == [] then []
    else
      assert s == [s[0]] + s[1..];
      Insert(s[0], SortDesc(s[1..]))
  }

  // ------------------------------------------------------------------ the dispatch/lead table

  /** The merged rows behind the table. */
  function Joined(leads: seq<Lead>, ds: seq<DisparoRow>): seq<JoinedRow> {
    Merge(LeadGroups(leads), ds)
  }

  /**
   * The dispatch/lead table: lead counts per join key, inner-merged with the
   * dispatch batches, totalled per (agreement, category), given their
   * percentage and sorted by it, largest first.
   */
  function TabelaDisparosLeads(leads: seq<Lead>, ds: seq<DisparoRow>): (t: seq<TableRow>)
    ensures SortedDesc(t)
    ensures multiset(t) == multiset(Map(TotaisPorPar(Joined(leads, ds)), WithProportion))
    ensures forall i :: 0 <= i < |t| ==> t[i].proporcao == ProportionOf(t[i].leads, t[i].quantidade)
  {
    SortedTable(TotaisPorPar(Joined(leads, ds)))
  }

  /** The totals given their percentage and sorted by it, largest first. */
  function SortedTable(ts: seq<Sums<Pair>>): (t: seq<TableRow>)
    ensures SortedDesc(t)
    ensures multiset(t) == multiset(Map(ts, WithProportion))
    ensures forall i :: 0 <= i < |t| ==> t[i].proporcao == ProportionOf(t[i].leads, t[i].quantidade)
  {
    var unsorted := Map(ts, WithProportion);
    var t := SortDesc(unsorted);
    ProportionsSurviveSort(t, unsorted);
    t
  }

  predicate ProportionRight(row: TableRow) {
    row.proporcao == ProportionOf(row.leads, row.quantidade)
  }

  lemma ProportionsSurviveSort(t: seq<TableRow>, w: seq<TableRow>)
    requires multiset(t) == multiset(w) && forall j :: 0 <= j < |w| ==> ProportionRight(w[j])
    ensures forall i :: 0 <= i < |t| ==> ProportionRight(t[i])
  {
    forall i | 0 <= i < |t| ensures ProportionRight(t[i]) {
      assert t[i] in multiset(w);
    }
  }

  /** Each table line comes from one (agreement, category) entry of the totals. */
  lemma TabelaRowOrigin(leads: seq<Lead>, ds: seq<DisparoRow>, i: nat)
    requires i < |TabelaDisparosLeads(leads, ds)|
    ensures exists j :: 0 <= j < |TotaisPorPar(Joined(leads, ds))|
                        && TabelaDisparosLeads(leads, ds)[i] == WithProportion(TotaisPorPar(Joined(leads, ds))[j])
  {
    var j := PermutedRowOrigin(TabelaDisparosLeads(leads, ds), TotaisPorPar(Joined(leads, ds)), i);
  }

  lemma PermutedRowOrigin(t: seq<TableRow>, ts: seq<Sums<Pair>>, i: nat) returns (j: nat)
    requires multiset(t) == multiset(Map(ts, WithProportion)) && i < |t|
    ensures j < |ts| && t[i] == WithProportion(ts[j])
  {
    var w := Map(ts, WithProportion);
    assert t[i] in multiset(w);
    j :| 0 <= j < |w| && w[j] == t[i];
  }

  /**
   * Each table line totals the merged rows of its (agreement, category): the
   * batch sizes, and the lead counts of every matching lead group counted
   * once per batch it meets; its percentage is the one of those totals.
   */
  lemma TabelaRowTotals(leads: seq<Lead>, ds: seq<DisparoRow>, i: nat)
    requires i < |TabelaDisparosLeads(leads, ds)|
    ensures var row := TabelaDisparosLeads(leads, ds)[i];
            var pair := (row.convenio, row.produto2);
            && row.quantidade == SumOf(Having(Joined(leads, ds), PairOf, pair), QuantidadeOf)
            && row.leads == SumOf(Having(Joined(leads, ds), PairOf, pair), LeadsOf)
            && row.leads == WeightedLeads(LeadGroups(leads), ds, pair)
            && |Having(Joined(leads, ds), PairOf, pair)| > 0
  {
    var js := Joined(leads, ds);
    var row := TabelaDisparosLeads(leads, ds)[i];
    PermutedRowTotals(TabelaDisparosLeads(leads, ds), js, i);
    MergeLeads(LeadGroups(leads), ds, (row.convenio, row.produto2));
  }

  /**
   * Each row's batch total can be read off the dispatch table alone: the sizes
   * of the batches with the row's (agreement, category) whose (day, agreement,
   * category, channel) is some deal's, each batch counted once.
   */
  lemma TabelaRowBatches(leads: seq<Lead>, ds: seq<DisparoRow>, i: nat)
    requires i < |TabelaDisparosLeads(leads, ds)|
    ensures var row := TabelaDisparosLeads(leads, ds)[i];
            row.quantidade == BatchQuantidade(Map(leads, LeadKeyOf), ds, (row.convenio, row.produto2))
  {
    var row := TabelaDisparosLeads(leads, ds)[i];
    var pair := (row.convenio, row.produto2);
    TabelaRowTotals(leads, ds, i);
    MergeQuantidade(LeadGroups(leads), ds, pair);
    LeadGroupKeys(leads);
    BatchQuantidadeSameKeys(Keys(LeadGroups(leads)), Map(leads, LeadKeyOf), ds, pair);
  }

  /**
   * Every row has at least one lead, so its percentage is a number, or +inf
   * when its batches total zero messages; -inf and NaN never appear.
   */
  lemma TabelaLeadsPositive(leads: seq<Lead>, ds: seq<DisparoRow>, i: nat)
    requires i < |TabelaDisparosLeads(leads, ds)|
    ensures TabelaDisparosLeads(leads, ds)[i].leads >= 1
    ensures TabelaDisparosLeads(leads, ds)[i].proporcao.Percent? || TabelaDisparosLeads(leads, ds)[i].proporcao.PosInfinity?
  {
    var t := TabelaDisparosLeads(leads, ds);
    MergeLeadsPositive(LeadGroups(leads), ds);
    PermutedRowPositive(t, Joined(leads, ds), i);
  }

  lemma PermutedRowPositive(t: seq<TableRow>, js: seq<JoinedRow>, i: nat)
    requires multiset(t) == multiset(Map(TotaisPorPar(js), WithProportion)) && i < |t|
    requires forall m :: 0 <= m < |js| ==> js[m].leads >= 1
    requires ProportionRight(t[i])
    ensures t[i].leads >= 1 && (t[i].proporcao.Percent? || t[i].proporcao.PosInfinity?)
  {
    PermutedRowTotals(t, js, i);
    PositiveLeadTotal(js, (t[i].convenio, t[i].produto2));
  }

  lemma PositiveLeadTotal(js: seq<JoinedRow>, pair: Pair)
    requires |Having(js, PairOf, pair)| > 0
    requires forall m :: 0 <= m < |js| ==> js[m].leads >= 1
    ensures SumOf(Having(js, PairOf, pair), LeadsOf) >= 1
  {
    var h := Having(js, PairOf, pair);
    forall n | 0 <= n < |h| ensures LeadsOf(h[n]) >= 1 {
      var m :| 0 <= m < |js| && js[m] == h[n];
    }
    SumOfPositive(h, LeadsOf);
  }

  lemma PermutedRowTotals(t: seq<TableRow>, js: seq<JoinedRow>, i: nat)
    requires multiset(t) == multiset(Map(TotaisPorPar(js), WithProportion)) && i < |t|
    ensures var pair := (t[i].convenio, t[i].produto2);
            && t[i].quantidade == SumOf(Having(js, PairOf, pair), QuantidadeOf)
            && t[i].leads == SumOf(Having(js, PairOf, pair), LeadsOf)
            && |Having(js, PairOf, pair)| > 0
  {
    var ts := TotaisPorPar(js);
    var j := PermutedRowOrigin(t, ts, i);
    assert (t[i].convenio, t[i].produto2) == ts[j].key;
  }

  /** No (agreement, category) pair appears on two lines. */
  lemma TabelaPairsDistinct(leads: seq<Lead>, ds: seq<DisparoRow>, i: nat, k: nat)
    requires i < k < |TabelaDisparosLeads(leads, ds)|
    ensures (TabelaDisparosLeads(leads, ds)[i].convenio, TabelaDisparosLeads(leads, ds)[i].produto2)
            != (TabelaDisparosLeads(leads, ds)[k].convenio, TabelaDisparosLeads(leads, ds)[k].produto2)
  {
    var t := TabelaDisparosLeads(leads, ds);
    var ts := TotaisPorPar(Joined(leads, ds));
    PermutedPairsDistinct(t, ts, i, k);
  }

  lemma PermutedPairsDistinct(t: seq<TableRow>, ts: seq<Sums<Pair>>, i: nat, k: nat)
    requires multiset(t) == multiset(Map(ts, WithProportion)) && Distinct(SumKeys(ts))
    requires i < k < |t|
    ensures (t[i].convenio, t[i].produto2) != (t[k].convenio, t[k].produto2)
  {
    var w := Map(ts, WithProportion);
    if (t[i].convenio, t[i].produto2) == (t[k].convenio, t[k].produto2) {
      assert t[i] in multiset(w) && t[k] in multiset(w);
      var a :| 0 <= a < |w| && w[a] == t[i];
      var b :| 0 <= b < |w| && w[b] == t[k];
      assert SumKeys(ts)[a] == SumKeys(ts)[b];
      DuplicateInMultiset(t, i, k);
      SingleInMultiset(ts, a);
      assert false;
    }
  }

  lemma DuplicateInMultiset<T>(s: seq<T>, i: nat, k: nat)
    requires i < k < |s| && s[i] == s[k]
    ensures multiset(s)[s[i]] >= 2
  {
    assert s == s[..i] + [s[i]] + s[i + 1..k] + [s[k]] + s[k + 1..];
  }

  /** An entry of a table with distinct pairs is the only source of its line. */
  lemma SingleInMultiset(ts: seq<Sums<Pair>>, a: nat)
    requires Distinct(SumKeys(ts)) && a < |ts|
    ensures multiset(Map(ts, WithProportion))[WithProportion(ts[a])] == 1
  {
    var w := Map(ts, WithProportion);
    var x := WithProportion(ts[a]);
    assert w == w[..a] + [x] + w[a + 1..];
    forall n | 0 <= n < |w| && n != a ensures w[n] != x {
      assert SumKeys(ts)[n] != SumKeys(ts)[a];
    }
    assert x !in w[..a];
    var tail := w[a + 1..];
    forall n | 0 <= n < |tail| ensures tail[n] != x {
      assert tail[n] == w[a + 1 + n];
    }
  }

  /** The table is empty exactly when no lead shares its (day, agreement, category, channel) with a dispatch batch. */
  lemma TabelaEmptyIff(leads: seq<Lead>, ds: seq<DisparoRow>)
    ensures TabelaDisparosLeads(leads, ds) == [] <==>
            forall n, m :: 0 <= n < |leads| && 0 <= m < |ds| ==> LeadKeyOf(leads[n]) != DisparoKeyOf(ds[m])
  {
    TabelaEmptyWhenJoinedEmpty(leads, ds);
    JoinedEmptyIff(leads, ds);
  }

  lemma TabelaEmptyWhenJoinedEmpty(leads: seq<Lead>, ds: seq<DisparoRow>)
    ensures TabelaDisparosLeads(leads, ds) == [] <==> Joined(leads, ds) == []
  {
    var js := Joined(leads, ds);
    var ts := TotaisPorPar(js);
    var t := TabelaDisparosLeads(leads, ds);
    assert |t| == |multiset(t)| == |Map(ts, WithProportion)|;
    if js != [] {
      assert PairOf(js[0]) in SumKeys(ts);
    }
    if ts != [] {
      assert |Having(js, PairOf, ts[0].key)| > 0;
    }
  }

  lemma JoinedEmptyIff(leads: seq<Lead>, ds: seq<DisparoRow>)
    ensures Joined(leads, ds) == [] <==>
            forall n, m :: 0 <= n < |leads| && 0 <= m < |ds| ==> LeadKeyOf(leads[n]) != DisparoKeyOf(ds[m])
  {
    var gs := LeadGroups(leads);
    MergeEmptyIff(gs, ds);
    forall n, m | 0 <= n < |leads| && 0 <= m < |ds| && LeadKeyOf(leads[n]) == DisparoKeyOf(ds[m])
      ensures exists i :: 0 <= i < |gs| && gs[i].key == DisparoKeyOf(ds[m])
    {
      var i :| 0 <= i < |gs| && Keys(gs)[i] == LeadKeyOf(leads[n]);
    }
    forall i, m | 0 <= i < |gs| && 0 <= m < |ds| && DisparoKeyOf(ds[m]) == gs[i].key
      ensures exists n :: 0 <= n < |leads| && LeadKeyOf(leads[n]) == DisparoKeyOf(ds[m])
    {
      var l := Having(leads, LeadKeyOf, gs[i].key)[0];
      var n :| 0 <= n < |leads| && leads[n] == l;
    }
  }

  /**
   * Three leads sharing a key with one batch of ten messages give one line:
   * ten sent, three leads, 30%.
   */
  lemma TabelaExample(l: Lead, d: DisparoRow)
    requires DisparoKeyOf(d) == LeadKeyOf(l) && d.quantidade == 10
    ensures TabelaDisparosLeads([l, l, l], [d]) == [TableRow(l.convenio, Label(l.produto2), 10, 3, Percent(30.0))]
  {
    var leads := [l, l, l];
    var k := LeadKeyOf(l);
    var gs := LeadGroups(leads);
    ExampleGroups(l);
    var js := Joined(leads, [d]);
    assert MatchesOf(Group(k, 3), [d]) == [JoinedRow(k, 3, 10)];
    assert js == MatchesOf(gs[0], [d]) + Merge(gs[1..], [d]);
    assert gs[1..] == [];
    assert js == [JoinedRow(k, 3, 10)];
    var ts := TotaisPorPar(js);
    ExampleTotals(k);
    var row := TableRow(l.convenio, Label(l.produto2), 10, 3, Percent(30.0));
    assert Map(ts, WithProportion) == [row];
    var t := TabelaDisparosLeads(leads, [d]);
    assert multiset(t) == multiset{row};
    assert |t| == 1 && t[0] in multiset(t);
  }

  lemma ExampleGroups(l: Lead)
    ensures LeadGroups([l, l, l]) == [Group(LeadKeyOf(l), 3)]
  {
    var leads := [l, l, l];
    var k := LeadKeyOf(l);
    var gs := LeadGroups(leads);
    forall i | 0 <= i < |gs| ensures gs[i].key == k {
      var h := Having(leads, LeadKeyOf, gs[i].key);
      assert h[0] in leads;
    }
    assert LeadKeyOf(leads[0]) in Keys(gs);
    assert |gs| > 1 ==> Keys(gs)[0] != Keys(gs)[1];
    assert |gs| == 1;
    HavingAll(leads, LeadKeyOf, k);
  }

  lemma ExampleTotals(k: JoinKey)
    ensures TotaisPorPar([JoinedRow(k, 3, 10)]) == [Sums(PairOfKey(k), 10, 3)]
  {
    var js := [JoinedRow(k, 3, 10)];
    var ts := TotaisPorPar(js);
    var p := PairOf(js[0]);
    forall i | 0 <= i < |ts| ensures ts[i].key == p {
      var h := Having(js, PairOf, ts[i].key);
      assert h[0] in js;
    }
    assert p in SumKeys(ts);
    assert |ts| == 1;
    HavingAll(js, PairOf, p);
  }
}
