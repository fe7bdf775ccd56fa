/** The header-name lists of constants.py that the bookkeeper consults. */
module Constants {

  /** Headers that identify the amount column. */
  const AmountHeaderNames: seq<string> := ["Összeg", "Amount"]

  /** Headers that identify the currency column. */
  const CurrencyHeaderNames: seq<string> := ["Pénznem", "Currency"]

  /** Headers that identify the date column. */
  const DateHeaderNames: seq<string> := ["Teljesítés dátuma", "Completed Date"]

  /** Headers that identify the category column (stored as the recipient). */
  const CategoryHeaderNames: seq<string> := ["Leírás", "Description"]

  /** Headers that identify the transaction-type column. */
  const TypeHeaderNames: seq<string> := ["Típus", "Type"]

  /** Transaction types that are never booked (currency exchanges). */
  const ExcludedTypes: seq<string> := ["Átváltás"]

  /** Headers that identify the per-row exclusion flag column. */
  const Flags: seq<string> := ["Excluded"]
}
