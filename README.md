# HubSpot / dispatch analysis: a verified model of the data pipeline

The application reads two exports: the CRM (HubSpot) deals log and the
campaign dispatch sheet. It cleans both, classifies each deal's free-text
product label into one of six categories, and computes the tables behind
five charts:

- deals per (creation day, channel);
- the dispatch/lead table per (agreement, category), with a lead
  percentage, sorted by it;
- deals per (stage, channel) without lost deals, drawn twice;
- deals per (agreement, channel).

This project models that pipeline in Dafny and proves what it computes. The
modules are:

- `Text`: the Python string operations used (`lower`, `upper`, `strip`,
  substring `in`, `replace(" ", "")`, `split("_")[0]`).
- `Seqs`: whole-column selection (`Filter`) and derived columns (`Map`).
- `Classifier`: `normalizar_produto`, an ordered table of
  (category, keywords) rules where the first match wins.
- `Records`: the two row types after the positional renaming, and the day
  type.
- `Normalize`: the cleaning steps of `main` on the two tables.
- `Grouping`: `groupby(...).size()` and `groupby(...)[[a, b]].sum()` over
  sequences of rows.
- `Graficos`: the chart tables, including the inner merge, the totals, the
  percentage and the descending sort.
- `Analise`: the body of `main` after upload, as an imperative method.

`grafico_tabela_disparos_leads` (graficos.py:44-49) and `grafico_tabela`
(graficos.py:79-84) build their frame with the same five statements, and
`main` repeats them at analise.py:67-71. All three are modelled by the single
function `Graficos.TabelaDisparosLeads`.

What the code does, and the model with it:

- Deals are not filtered by team.
- The channel filter excludes exactly HYPERFLOW, Tallos and DISPARO
  (analise.py:42).
- There are no user-selected date, agreement, category or stage filters.
- The percentage is a float division. A zero batch total gives `+inf` for
  positive leads, `-inf` for negative leads and `NaN` for zero leads. Every
  table row has at least one lead, so of these only `+inf` can appear
  (`Graficos.TabelaLeadsPositive`).

## Model

| member | source | states |
|---|---|---|
| Classifier.NormalizarProduto | analise.py:7-21 | The loop over the rule table, with its early return, yields exactly `Classify` of the label (OUTROS for a missing label). |
| Classifier.AnyOccursIff | analise.py:19 | The `any(...)` test holds exactly when some keyword of the rule is a substring of the label. |
| Classifier.RulesCategoriesDistinct | analise.py:8-14 | The rule table has five rules, for NOVO, AMBOS CARTÕES, CARTÃO, BENEFICIO and NQB in dictionary order; no category repeats and none is OUTROS. |
| Classifier.FirstMatchCases | analise.py:18-21 | The answer is either OUTROS with no rule matching, or the category of a matching rule that no earlier rule preempts. |
| Classifier.ClassifyIsFirstMatchingRule | analise.py:8-20 | Both directions: a label gets rule i's category exactly when a rule-i keyword occurs in the normalised label and no earlier rule's keyword does. |
| Classifier.ClassifyOutros | analise.py:16-21 | Both directions: OUTROS exactly when the label is missing or no keyword of any rule occurs in it. |
| Classifier.BlankLabelIsOutros | analise.py:16-21 | A missing label, the empty label and any all-blank label are OUTROS. |
| Classifier.NormalizeLabelIdempotent | analise.py:17 | Lower-casing and stripping an already normalised label changes nothing. |
| Classifier.ClassifyIgnoresCaseAndBlanks | analise.py:17 | Classifying `s`, `lower(strip(s))` or `strip(lower(s))` gives the same category. |
| Classifier.UpperCaseKeywordNeverMatches | analise.py:12-17 | A keyword containing an upper-case letter never occurs in a normalised label. |
| Classifier.BeneficioCapitalNeverMatches | analise.py:12 | The BENEFICIO keyword 'Benefício' is in the table but can never match. |
| Classifier.NovoBeatsEverything | analise.py:9-20 | A label containing any NOVO keyword is NOVO, whatever other keywords it holds. |
| Classifier.NovoBeneficioIsNovo | analise.py:9-20 | "novo benefício" contains both "novo" and "benef" and is NOVO. |
| Classifier.AmbosBeatsCartao | analise.py:9-20 | A label with an AMBOS CARTÕES keyword and no NOVO keyword is AMBOS CARTÕES, whatever CARTÃO keyword it holds. |
| Classifier.CartoesConsignadosIsAmbos | analise.py:10-20 | "cartões consignados" contains CARTÃO's "consignado", yet is AMBOS CARTÕES. |
| Text.Trim | analise.py:17 | The stripped label is a middle slice of the input with only blanks cut off on either side, and it has no blank at either end. |
| Text.TrimIdempotent | analise.py:17 | Stripping twice is stripping once. |
| Text.TrimLowerCommute | analise.py:17 | Lower-casing and stripping commute. |
| Text.LowerIdempotent | analise.py:17 | Lower-casing twice is lower-casing once. |
| Text.LowerHasNoUpper | analise.py:17 | A lower-cased string contains no upper-case letter. |
| Text.StripSpaces | analise.py:46 | The result has no space, and its characters are the input's with every space removed and every other character kept, counted with multiplicity. |
| Text.StripSpacesAppend | analise.py:46 | Deleting spaces distributes over concatenation, so the remaining characters keep their order. |
| Text.BeforeFirst | analise.py:44 | The result is the longest prefix without the separator: a prefix of the input, separator-free, and followed by the separator unless it is all of the input. |
| Seqs.Filter | analise.py:42 | A row selection keeps only rows that pass and keeps every row that passes. |
| Seqs.FilterAppend | analise.py:42 | A selection preserves row order: it distributes over any split of the table. |
| Seqs.FilterFusion | analise.py:42-50 | The channel selection followed by the date selection is one selection by both conditions. |
| Seqs.FilterMapCommute | analise.py:46-58 | Deleting spaces in the agreement and then selecting by date gives the same rows as the other order. |
| Seqs.FilterMultiset | analise.py:42 | A selection keeps every copy of a passing row and no copy of a failing one. |
| Seqs.FilterPartition | analise.py:77 | Every row falls on exactly one side of a selection and its negation, counted and by multiset. |
| Normalize.Relabel | analise.py:51 | No channel is "Whatsapp Grow" afterwards, and the only value changed is "Whatsapp Grow", which becomes "RCS". |
| Normalize.RelabelIdempotent | analise.py:51 | Relabelling twice is relabelling once; any channel other than "Whatsapp Grow" is unchanged. |
| Normalize.Convenio | analise.py:44 | The agreement is the upper-cased prefix of the campaign before its first `_`, and it contains no `_`. |
| Normalize.ConvenioExamples | analise.py:44 | "ABC_123_xyz" gives "ABC", and "abc" gives "ABC". |
| Normalize.ConvenioWhole | analise.py:44 | Both directions: the agreement is the whole campaign, upper-cased, exactly when the campaign has no `_`. |
| Normalize.StripConvenio | analise.py:46 | Only the agreement field of a dispatch row changes; it loses every space and keeps every other character. |
| Normalize.StripConvenioKeepsOtherCharacters | analise.py:46 | Space deletion keeps order and is idempotent; a tab survives and a lone space vanishes. |
| Normalize.NormalizeHubspot | analise.py:42-54 | The deal-table steps produce `NormalizedLeads`, with one deal per kept row, and every deal is clean. The steps run as channel filter, cutoff, relabel, then both derived columns. The code derives `convenio` (line 44) before the cutoff (line 50), which gives each kept row the same value. |
| Normalize.NormalizedLeadsKeepColumns | analise.py:42-54 | Deal i is kept row i. Every column other than the channel is unchanged, the channel is relabelled, and `convenio` and `produto2` are derived from that row. |
| Normalize.NormalizedLeadsClean | analise.py:42-54 | Every normalised deal is from a non-excluded channel, is not "Whatsapp Grow", is dated after the cutoff and carries both derived columns. |
| Normalize.NormalizeLeadClean | analise.py:42-54 | A row passing both selections normalises to a clean deal. |
| Normalize.NormalizeDisparos | analise.py:46-58 | The dispatch steps equal both orders of space deletion and date selection; every agreement is space-free and every day after the cutoff. |
| Normalize.ChannelFilterExact | analise.py:42 | The channel filter removes every copy of a row from HYPERFLOW, Tallos or DISPARO and keeps every copy of any other row. |
| Normalize.ChannelFilterKeepsOrder | analise.py:42 | The channel filter keeps the remaining rows in order. |
| Normalize.CutoffIsStrict | analise.py:50-58 | In both tables a row dated 2025-02-10 is dropped and one dated 2025-02-11 is kept. |
| Grouping.CountBy | graficos.py:8 | `groupby(...).size()` gives one group per distinct key present, each as large as the number of rows with that key (at least 1); the sizes sum to the row count. |
| Grouping.CountByKeysExact | graficos.py:8 | Both directions: a key has a group exactly when some row carries it. |
| Grouping.BumpCounts | graficos.py:8 | Counting one more row keeps the size table exact. |
| Grouping.HavingCount | graficos.py:8 | The number of rows whose key is k equals the multiplicity of k in the key column. |
| Grouping.HavingFilter | analise.py:77-78 | Dropping lost deals first leaves a non-PERDA key's rows untouched. |
| Grouping.SumBy | graficos.py:47 | `groupby(...)[[a, b]].sum()` gives one entry per distinct key present, whose two sums are the sums over exactly the rows with that key. |
| Grouping.AddSums | graficos.py:47 | Adding one more row keeps the sum table exact. |
| Graficos.CountRows | graficos.py:8 | A per-row key's count table has distinct keys, per-key counts equal to the matching rows (at least 1), every row's key listed, and sizes summing to the row count. |
| Graficos.RegistrosPorOrigem | graficos.py:8 | Chart 1: one group per (creation day, channel) present, each counting its deals (at least 1); the counts sum to the number of deals. |
| Graficos.EtapasOrigem | graficos.py:122 | One group per (stage, channel) present, counts at least 1, summing to the number of deals. |
| Graficos.EtapasSemPerdaPlusPerda | analise.py:77-78 | The PERDA-free stage counts plus the number of PERDA deals make up all deals. |
| Graficos.EtapasOrigemKeepsPerda | graficos.py:122 | The unfiltered stage view shows a PERDA group whenever a deal is lost, unlike the view in `main`. |
| Graficos.CpfPorConvenio | graficos.py:157 | One group per (agreement, channel) present, counts at least 1, summing to the number of deals. |
| Graficos.EtapasSemPerda | analise.py:77-78 | Charts 3 and 4: no group has stage PERDA; every other (stage, channel) keeps its full count; the counts sum to the non-PERDA deals. |
| Graficos.LeadGroups | graficos.py:45 | Leads per (day, agreement, category text, channel): distinct keys, exact counts of at least 1, every deal covered, counts summing to the deal count. |
| Graficos.MatchesOf | graficos.py:46 | A lead group's merged rows are exactly its matching dispatch batches, in dispatch order. Each row carries the group's key, its lead count and that batch's `quantidade`. |
| Graficos.MatchesOfSound | graficos.py:46 | Each merged row of a group carries the size of one dispatch batch with the group's key. |
| Graficos.Merge | graficos.py:46 | Every merged row's key is both a lead-group key and a dispatch key. |
| Graficos.MergeSound | graficos.py:46 | Every merged row pairs a lead group with a dispatch batch of the same key. |
| Graficos.MergeComplete | graficos.py:46 | Every lead group and dispatch batch sharing a key meet in the merge. |
| Graficos.MergeEmptyIff | graficos.py:46 | Both directions: the inner merge is empty exactly when no lead group shares its key with a dispatch batch. |
| Graficos.MergeMultiplicity | graficos.py:45-47 | A lead group whose key k dispatch batches share appears exactly k times after the merge, each time with its lead count. |
| Graficos.TotaisPorPar | graficos.py:47 | One entry per (agreement, category) present; its `quantidade` and `leads` are the sums over exactly the merged rows of that pair. |
| Graficos.MergeLeads | graficos.py:45-47 | A pair's lead total counts each matching lead group once per dispatch batch it meets. |
| Graficos.MergeQuantidade | graficos.py:46-47 | The `quantidade` total of a pair is the size of every dispatch batch with that pair whose key some lead group has, each batch counted once. |
| Graficos.LeadGroupKeys | graficos.py:45 | Both directions: a join key has a lead group exactly when some deal carries it. |
| Graficos.ProportionOf | graficos.py:48 | The percentage p satisfies p·quantidade = 100·leads when `quantidade` ≠ 0; a zero total gives +inf, -inf or NaN by the sign of `leads`. |
| Graficos.WithProportion | graficos.py:48 | Each table row's percentage is the one of its own two totals. |
| Graficos.AtLeastTotalOrder | graficos.py:49 | The descending order (+inf, numbers, -inf, NaN last) is total, reflexive and transitive. |
| Graficos.Insert | graficos.py:49 | Inserting into a descending table keeps it descending and adds exactly the one row. |
| Graficos.SortDesc | graficos.py:49 | `sort_values(ascending=False)` returns a permutation of its input in non-increasing percentage order. |
| Graficos.SortedTable | graficos.py:48-49 | The totals with their percentages, as a descending permutation, with each percentage correct. |
| Graficos.TabelaDisparosLeads | graficos.py:44-49 | The dispatch/lead table (also `grafico_tabela` and analise.py:67-71) is sorted descending, is a permutation of the per-pair totals with their percentages, and every row's percentage matches its totals. |
| Graficos.TabelaRowOrigin | graficos.py:47-49 | Each table row comes from one per-pair totals entry. |
| Graficos.TabelaRowTotals | graficos.py:45-48 | Each row's `quantidade` and `leads` are the sums over its pair's merged rows, which are not empty; `leads` counts each lead group once per batch it meets. |
| Graficos.TabelaRowBatches | graficos.py:45-47 | A row's `quantidade` is read off the dispatch table alone: it sums the batches with the row's pair whose 4-tuple key is some deal's. |
| Graficos.TabelaLeadsPositive | graficos.py:45-48 | Every row has at least one lead, so its percentage is a number or +inf, never -inf or NaN. |
| Graficos.TabelaPairsDistinct | graficos.py:47-49 | No (agreement, category) pair appears on two table rows. |
| Graficos.TabelaEmptyIff | graficos.py:45-49 | Both directions: the table is empty exactly when no deal shares its (day, agreement, category, channel) with a dispatch batch. |
| Graficos.JoinedEmptyIff | graficos.py:45-46 | Both directions: the merge is empty exactly when no deal's key is a dispatch key. |
| Graficos.TabelaExample | graficos.py:45-49 | Three deals sharing a key with one batch of ten messages give the single row (10 sent, 3 leads, 30%). |
| Analise.RunAnalise | analise.py:38-91 | `main` after upload: the five chart tables are the view functions applied to the cleaned tables. Charts 3 and 4 coincide and hold no PERDA. Charts 1 and 5 total the kept deals. Chart 1 shows only clean channels after the cutoff. The table is sorted. |
| Analise.RegistrosClean | analise.py:42-61 | Every (day, channel) bar of chart 1 is from a kept, relabelled channel on a day after the cutoff. |

## Left out

- Upload, display and chart drawing (Streamlit and Plotly calls, titles, colours, layout, `category_orders`) are presentation, not data logic.
- The check that exactly two files were uploaded is not modelled. The model starts from two in-memory tables.
- `pd.read_csv`, `pd.to_datetime` (including `dayfirst`) and `.dt.date` are not modelled. Dates arrive parsed as calendar days (`Records.Date`).
- The positional column renaming is not modelled. It is the constructor of `HubspotRow` and `DisparoRow`.
- `Graficos.RegistrosPorOrigem`, `Graficos.EtapasOrigem`, `Graficos.CpfPorConvenio`, `Graficos.EtapasSemPerda`, `Graficos.LeadGroups` and `Graficos.TotaisPorPar` list their groups in the order keys first appear. pandas `groupby` sorts keys. The contents are exact, but the row order is not modelled.
- Graficos.SortDesc: the order among rows with equal percentages is left unspecified. pandas' default quicksort is not stable.
- Graficos.ProportionOf: the percentage is the exact rational `100·leads/quantidade`. Float rounding and `.round(2)` are not modelled, so two rows that round to the same value may still be ordered by their exact values.
- Text.Upper: `ß`, `ÿ` and `µ` are left unchanged, whereas Python's `upper()` turns them into `SS`, `Ÿ` and `Μ`. This affects the agreement derived by `Normalize.Convenio` (analise.py:44).
- Text.Lower: case mapping covers Latin-1 only. Letters outside Latin-1, which Python maps through full Unicode tables, are left unchanged by both `Text.Lower` and `Text.Upper`.
- Classifier.Classify: a product label that is present but not a string is not modelled, since `.lower()` raises on it in Python. Any missing label (`None`/NaN) is OUTROS.
- pandas null semantics outside the product label are not modelled. Rows with a null group key, which `groupby` drops, and a NaN campaign, which would make `convenio` NaN, cannot arise because every key field is a plain string.
- Merged rows keep only the key, the lead count and `quantidade`. The other dispatch columns (cost, MQL, paid, revenue) are not carried, since no chart reads them.
- `convenio` is computed after the date cutoff instead of before it (analise.py:44 runs before line 50). It is a per-row derived column, so the kept rows get the same value either way.
