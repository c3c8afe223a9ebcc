/**
 * The rows of the two exports, after the positional column renaming: the CRM
 * (HubSpot) deals export with its sixteen columns and the campaign dispatch
 * sheet with its nine. Dates arrive already parsed, as calendar days.
 */
module Records {
  import opened Options
  import opened Classifier

  /** A calendar day, as `pd.to_datetime(...)` leaves it (midnight of that day). */
  datatype Date = Date(year: int, month: int, day: int)

  /** Chronological order of days: year, then month, then day. */
  predicate Before(a: Date, b: Date) {
    a.year < b.year
    || (a.year == b.year && a.month < b.month)
    || (a.year == b.year && a.month == b.month && a.day < b.day)
  }

  /** `pd.Timestamp("2025-02-10")`: both tables keep only rows created strictly after this day. */
  const Cutoff := Date(2025, 2, 10)

  /** One CRM deal, columns in the order the renaming assigns them. */
  datatype HubspotRow = HubspotRow(
    id: string,
    cliente: string,
    dataCriado: Date,
    cpf: string,
    telefone: string,
    convenioCompleto: string,
    origem: string,
    campanha: string,
    proprietario: string,
    produto: Option<string>,
    equipe: string,
    etapa: string,
    motivoPerda: string,
    dataPago: string,
    comissaoTotalProjetada: string,
    valorPago: string)

  /** A CRM deal with the two derived columns: `convenio` (from the campaign) and `produto2` (the product category). */
  datatype Lead = Lead(row: HubspotRow, convenio: string, produto2: Category)

  /** One dispatch batch: day, agreement, product text, messages sent, channel and the cost/result figures. */
  datatype DisparoRow = DisparoRow(
    dataCriado: Date,
    convenio: string,
    produto2: string,
    quantidade: int,
    origem: string,
    gasto: string,
    mql: string,
    pagos: string,
    receita: string)
}
