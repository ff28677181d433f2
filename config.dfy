/** The constant tables: header patterns per field, in the order the
    fields are tried, the data directories and the trend thresholds. */
module Config {

  /** The fields of a customer sheet, in the order `mapColumns` tries them. */
  datatype CustomerField = CustomerCol | RevenueCol | ProfitCol | MarginPctCol

  /** `COLUMN_MAPPING`: for each field, the substrings that identify its
      column in a normalised header. */
  const ColumnMapping: seq<(CustomerField, seq<string>)> := [
    (CustomerCol, ["odběratel", "odberatel", "customer", "zakaznik", "zákazník"]),
    (RevenueCol, ["obrat výdej zboží bez dph", "obrat vydej zbozi bez dph", "obrat", "revenue", "tržby", "trzby",
                  "bez dph", "bez_dph", "obrat/výdej", "obrat/vydej"]),
    (ProfitCol, ["zisk", "profit", "výsledek", "vysledek", "zisk výdej", "zisk vydej"]),
    (MarginPctCol, ["marže %", "marze %", "marže", "marze", "margin", "margin %", "margin%", "marže/výdej", "marze/vydej"])
  ]

  /** The fields of a supplier sheet, in the order they are tried. */
  datatype SupplierField = SupplierCol | TurnoverCol | ItemsCol

  /** `SUPPLIER_COLUMN_MAPPING`. */
  const SupplierColumnMapping: seq<(SupplierField, seq<string>)> := [
    (SupplierCol, ["dodavatel", "supplier", "firma", "název", "nazev", "zkratka"]),
    (TurnoverCol, ["obrat", "turnover", "tržby", "trzby", "částka", "castka", "suma"]),
    (ItemsCol, ["položky", "polozky", "items", "ks", "počet", "pocet", "množství", "mnozstvi"])
  ]

  const DataDir: string := "data/dvur"
  const SupplierDataDir: string := "data/dodavatele"

  /** `TREND_THRESHOLDS`: a change of at least +5 % is UP, of at most
      -5 % is DOWN. */
  const TrendUp: real := 5.0
  const TrendDown: real := -5.0
}
