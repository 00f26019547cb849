/**
 * `filterTransactions`: the table's search box and type drop-down applied to
 * the batch of up to 100 transactions fetched from the backend. The type
 * step and the search step are two `.filter` calls in a row, followed by
 * `.slice(0, 10)`.
 */
module TransactionFilter {
  import opened Sequences
  import Text
  import TypeCatalog

  /**
   * A transaction record. The backend sends a positional array; the fields
   * this core reads are `t[1]` (description), `t[2]` (type code), `t[3]`
   * (amount), `t[4]` (timestamp) and `t[6]` (raw SMS text).
   */
  datatype Transaction = Transaction(
    description: string,
    typeCode: string,
    amount: int,
    timestamp: string,
    rawMessage: string)

  /** At most this many matches are shown. */
  const DisplayLimit: nat := 10

  /** `t[2] === typeValue`: exact, case-sensitive comparison of type codes. */
  function ByType(typeValue: string): Transaction -> bool {
    (t: Transaction) => t.typeCode == typeValue
  }

  /**
   * The search predicate for an already lower-cased term: the lower-cased
   * description, the lower-cased raw message or the string form of the amount
   * contains it.
   */
  predicate MatchesSearch(t: Transaction, term: string) {
    || Text.Includes(Text.Lower(t.description), term)
    || Text.Includes(Text.Lower(t.rawMessage), term)
    || Text.Includes(Text.IntToString(t.amount), term)
  }

  function BySearch(term: string): Transaction -> bool {
    (t: Transaction) => MatchesSearch(t, term)
  }

  /** The local `filtered` before the slice: the records that survive the type step and then the search step. */
  function Survivors(batch: seq<Transaction>, searchInput: string, typeValue: string): (r: seq<Transaction>)
    ensures |r| <= |batch|
    ensures forall t :: t in r ==> t in batch
  {
    var searchTerm := Text.Lower(searchInput);
    var byType := if typeValue != TypeCatalog.AllTypes then Filter(ByType(typeValue), batch) else batch;
    if searchTerm != "" then Filter(BySearch(searchTerm), byType) else byType
  }

  /**
   * The transactions the table shows for the current search text and type
   * selection: the type step is skipped for "all", the search step for an
   * empty search text, and only the first ten survivors are kept.
   */
  function FilterTransactions(batch: seq<Transaction>, searchInput: string, typeValue: string): (r: seq<Transaction>)
    ensures |r| <= DisplayLimit
  {
    Take(Survivors(batch, searchInput, typeValue), DisplayLimit)
  }

  /**
   * Whether one record passes both steps, stated on its own: its type is the
   * selected one (or "all" is selected) AND the search text is empty or
   * found, ignoring case, in one of the three searched fields.
   */
  predicate Selected(t: Transaction, searchInput: string, typeValue: string) {
    && (typeValue == TypeCatalog.AllTypes || t.typeCode == typeValue)
    && (searchInput == "" || MatchesSearch(t, Text.Lower(searchInput)))
  }

  function SelectedBy(searchInput: string, typeValue: string): Transaction -> bool {
    (t: Transaction) => Selected(t, searchInput, typeValue)
  }

  /** With a type selected and a search text, the two filters in a row are one filter by `Selected`. */
  lemma BothStepsAreSelected(batch: seq<Transaction>, searchInput: string, typeValue: string)
    requires typeValue != TypeCatalog.AllTypes && Text.Lower(searchInput) != ""
    ensures Filter(BySearch(Text.Lower(searchInput)), Filter(ByType(typeValue), batch))
         == Filter(SelectedBy(searchInput, typeValue), batch)
  {
    var p, q := ByType(typeValue), BySearch(Text.Lower(searchInput));
    var sel := SelectedBy(searchInput, typeValue);
    FilterFusion(p, q, batch);
    assert forall x :: x in batch ==> (p(x) && q(x)) == sel(x);
    FilterCongruent(x => p(x) && q(x), sel, batch);
  }

  /** The two steps in a row are one filter by `Selected`. */
  lemma SurvivorsAreSelected(batch: seq<Transaction>, searchInput: string, typeValue: string)
    ensures Survivors(batch, searchInput, typeValue) == Filter(SelectedBy(searchInput, typeValue), batch)
  {
    var term := Text.Lower(searchInput);
    Text.LowerEmptyIff(searchInput);
    var sel := SelectedBy(searchInput, typeValue);
    if typeValue != TypeCatalog.AllTypes && term != "" {
      BothStepsAreSelected(batch, searchInput, typeValue);
    } else if typeValue != TypeCatalog.AllTypes {
      assert forall x :: x in batch ==> ByType(typeValue)(x) == sel(x);
      FilterCongruent(ByType(typeValue), sel, batch);
    } else if term != "" {
      assert forall x :: x in batch ==> BySearch(term)(x) == sel(x);
      FilterCongruent(BySearch(term), sel, batch);
    } else {
      assert forall x :: x in batch ==> sel(x);
      FilterAllPass(sel, batch);
    }
  }

  /** The chain of two filters and a slice is one filter by `Selected` and the slice. */
  lemma FilterChainIsOneFilter(batch: seq<Transaction>, searchInput: string, typeValue: string)
    ensures FilterTransactions(batch, searchInput, typeValue)
         == Take(Filter(SelectedBy(searchInput, typeValue), batch), DisplayLimit)
  {
    SurvivorsAreSelected(batch, searchInput, typeValue);
  }

  /**
   * Every record shown comes from the batch, passes the type and the search
   * step, and the records keep their order in the batch; there are at most ten.
   */
  lemma FilterTransactionsSound(batch: seq<Transaction>, searchInput: string, typeValue: string)
    ensures var r := FilterTransactions(batch, searchInput, typeValue);
      && |r| <= DisplayLimit
      && IsSubsequence(r, batch)
      && forall t :: t in r ==> t in batch && Selected(t, searchInput, typeValue)
  {
    var sel := SelectedBy(searchInput, typeValue);
    var all := Filter(sel, batch);
    var r := FilterTransactions(batch, searchInput, typeValue);
    FilterChainIsOneFilter(batch, searchInput, typeValue);
    FilterIsSubsequence(sel, batch);
    PrefixIsSubsequence(all, |r|);
    SubsequenceTransitive(r, all, batch);
  }

  /**
   * Nothing that passes both steps is dropped unless ten records are already
   * shown: with fewer than ten results, a record is shown iff it is in the
   * batch and passes both steps.
   */
  lemma FilterTransactionsComplete(batch: seq<Transaction>, searchInput: string, typeValue: string, t: Transaction)
    requires t in batch && Selected(t, searchInput, typeValue)
    ensures var r := FilterTransactions(batch, searchInput, typeValue);
      t in r || |r| == DisplayLimit
  {
    FilterChainIsOneFilter(batch, searchInput, typeValue);
    FilterMembership(SelectedBy(searchInput, typeValue), batch, t);
  }

  /** With type "all" and an empty search the table shows the first ten fetched records as they are. */
  lemma NoFilterShowsPrefix(batch: seq<Transaction>)
    ensures FilterTransactions(batch, "", TypeCatalog.AllTypes)
         == batch[..if |batch| < DisplayLimit then |batch| else DisplayLimit]
  {
  }

  /** Filtering the displayed records again with the same inputs shows the same records. */
  lemma FilterTransactionsIdempotent(batch: seq<Transaction>, searchInput: string, typeValue: string)
    ensures var r := FilterTransactions(batch, searchInput, typeValue);
      FilterTransactions(r, searchInput, typeValue) == r
  {
    var r := FilterTransactions(batch, searchInput, typeValue);
    FilterTransactionsSound(batch, searchInput, typeValue);
    FilterChainIsOneFilter(r, searchInput, typeValue);
    FilterAllPass(SelectedBy(searchInput, typeValue), r);
  }

  /** Only the lower-cased search text matters: "ABC" and "abc" select the same records. */
  lemma SearchIgnoresCase(batch: seq<Transaction>, input1: string, input2: string, typeValue: string)
    requires Text.Lower(input1) == Text.Lower(input2)
    ensures FilterTransactions(batch, input1, typeValue) == FilterTransactions(batch, input2, typeValue)
  {
  }

  /**
   * A record whose description contains the typed text, ignoring letter case
   * on both sides ("Paid MTN" and "mtn"), passes the search step.
   */
  lemma DescriptionMatchFound(t: Transaction, searchInput: string)
    requires exists i :: Text.OccursAt(Text.Lower(t.description), Text.Lower(searchInput), i)
    ensures MatchesSearch(t, Text.Lower(searchInput))
  {
    Text.IncludesIff(Text.Lower(t.description), Text.Lower(searchInput));
  }

  /** A record of another type is never shown while a type is selected, whatever the search. */
  lemma OtherTypeNeverShown(batch: seq<Transaction>, searchInput: string, typeValue: string, t: Transaction)
    requires typeValue != TypeCatalog.AllTypes && t.typeCode != typeValue
    ensures t !in FilterTransactions(batch, searchInput, typeValue)
  {
    FilterTransactionsSound(batch, searchInput, typeValue);
  }
}
