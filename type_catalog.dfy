/**
 * The dashboard's three static tables keyed by transaction-type code: the
 * descriptor a table row shows (`getTypeInfo`), the friendly names used as
 * doughnut-chart labels (`typeNames`), and the entries of the type filter
 * drop-down (`initTypeFilter`). The first two are only looked up, so they
 * are maps; the third is walked in order, so it is a sequence.
 */
module TypeCatalog {

  /** What a row of the transaction table shows for a type: `{name, icon, color}`. */
  datatype TypeInfo = TypeInfo(name: string, icon: string, color: string)

  /** The option value that switches the type filter off. */
  const AllTypes: string := "all"

  const FallbackIcon: string := "fas fa-question-circle"
  const FallbackColor: string := "#95a5a6"

  /** The `types` object inside `getTypeInfo`. */
  const TypeInfos: map<string, TypeInfo> := map[
    "incoming_money" := TypeInfo("Incoming Money", "fas fa-download", "#2ecc71"),
    "payment_code_holder" := TypeInfo("Payment", "fas fa-money-bill-wave", "#9b59b6"),
    "transfer_mobile" := TypeInfo("Transfer", "fas fa-exchange-alt", "#3498db"),
    "bank_deposit" := TypeInfo("Bank Deposit", "fas fa-building", "#16a085"),
    "airtime_payment" := TypeInfo("Airtime", "fas fa-phone-alt", "#f39c12"),
    "cash_power" := TypeInfo("Cash Power", "fas fa-bolt", "#d35400"),
    "third_party" := TypeInfo("Third Party", "fas fa-user-friends", "#7f8c8d"),
    "agent_withdrawal" := TypeInfo("Withdrawal", "fas fa-upload", "#e74c3c"),
    "bank_transfer" := TypeInfo("Bank Transfer", "fas fa-university", "#2980b9"),
    "bundle_purchase" := TypeInfo("Bundle", "fas fa-wifi", "#8e44ad")
  ]

  /** The `typeNames` object of `renderTypeChart`. */
  const TypeNames: map<string, string> := map[
    "incoming_money" := "Incoming Money",
    "payment_code_holder" := "Payments",
    "transfer_mobile" := "Transfers",
    "bank_deposit" := "Bank Deposits",
    "airtime_payment" := "Airtime",
    "cash_power" := "Cash Power",
    "third_party" := "Third Party",
    "agent_withdrawal" := "Withdrawals",
    "bank_transfer" := "Bank Transfers",
    "bundle_purchase" := "Bundles"
  ]

  /** The `types` object of `initTypeFilter`, in its key order: (option value, option text). */
  const FilterOptions: seq<(string, string)> := [
    ("all", "All Types"),
    ("incoming_money", "Incoming Money"),
    ("payment_code_holder", "Payments"),
    ("transfer_mobile", "Transfers"),
    ("bank_deposit", "Bank Deposits"),
    ("airtime_payment", "Airtime"),
    ("cash_power", "Cash Power"),
    ("third_party", "Third Party"),
    ("agent_withdrawal", "Withdrawals"),
    ("bank_transfer", "Bank Transfers"),
    ("bundle_purchase", "Bundles")
  ]

  /** `getTypeInfo(type)`: the listed descriptor, or a grey question-mark descriptor named after the code. */
  function GetTypeInfo(code: string): (r: TypeInfo)
    ensures code in TypeInfos ==> r == TypeInfos[code]
    ensures code !in TypeInfos ==> r == TypeInfo(code, FallbackIcon, FallbackColor)
  {
    if code in TypeInfos then TypeInfos[code] else TypeInfo(code, FallbackIcon, FallbackColor)
  }

  /** `typeNames[label] || label`: the friendly name of a known code, otherwise the label unchanged. */
  function ChartLabel(code: string): (r: string)
    ensures code in TypeNames ==> r == TypeNames[code]
    ensures code !in TypeNames ==> r == code
  {
    if code in TypeNames then TypeNames[code] else code
  }

  /** `labels.map(label => typeNames[label] || label)`. */
  function ChartLabels(labels: seq<string>): (r: seq<string>)
    ensures |r| == |labels|
    ensures forall i :: 0 <= i < |labels| ==> r[i] == ChartLabel(labels[i])
  {
    if labels == [] then [] else [ChartLabel(labels[0])] + ChartLabels(labels[1..])
  }

  /**
   * The fallback is recognisable: a row shows the question-mark icon exactly
   * for the codes the catalog does not list, and then shows the code itself as name.
   */
  lemma FallbackIffUnknown(code: string)
    ensures GetTypeInfo(code).icon == FallbackIcon <==> code !in TypeInfos
    ensures code !in TypeInfos ==> GetTypeInfo(code).name == code
  {
    assert forall c :: c in TypeInfos ==> TypeInfos[c].icon != FallbackIcon;
  }

  /** The row descriptors and the chart names cover the same codes, and "all" is not one of them. */
  lemma CatalogsCoverSameCodes()
    ensures TypeInfos.Keys == TypeNames.Keys
    ensures AllTypes !in TypeInfos
  {
  }

  /**
   * The drop-down offers "all" first and then only codes with a chart name,
   * each with the same text the doughnut shows for it.
   */
  lemma FilterOptionsAgree()
    ensures FilterOptions[0] == (AllTypes, "All Types")
    ensures forall i :: 1 <= i < |FilterOptions| ==> FilterOptions[i].0 in TypeNames
    ensures forall i :: 1 <= i < |FilterOptions| ==> ChartLabel(FilterOptions[i].0) == FilterOptions[i].1
  {
  }

  /** Every code with a chart name is offered by the drop-down. */
  lemma FilterOptionsComplete()
    ensures forall code :: code in TypeNames ==> exists i :: 1 <= i < |FilterOptions| && FilterOptions[i].0 == code
  {
    forall code | code in TypeNames
      ensures exists i :: 1 <= i < |FilterOptions| && FilterOptions[i].0 == code
    {
      var i := OptionIndex(code);
    }
  }

  /** Where `initTypeFilter` lists a chart-named code. */
  function OptionIndex(code: string): (i: int)
    requires code in TypeNames
    ensures 1 <= i < |FilterOptions| && FilterOptions[i].0 == code
  {
    if code == "incoming_money" then 1
    else if code == "payment_code_holder" then 2
    else if code == "transfer_mobile" then 3
    else if code == "bank_deposit" then 4
    else if code == "airtime_payment" then 5
    else if code == "cash_power" then 6
    else if code == "third_party" then 7
    else if code == "agent_withdrawal" then 8
    else if code == "bank_transfer" then 9
    else 10
  }
}
