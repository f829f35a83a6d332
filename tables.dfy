/** The statement-building helpers of the `tables` crate: numbered SQL
    parameter placeholders ("?1, ?2, ..."), the "column = ?k" assignment list of
    an update, the `add_if_present!` column/value pairing, and the crate's error
    type. Executing the statements is not part of this model. */
module Tables {
  import opened Wrappers
  import opened Text

  /** `OrmError`; the id of `NotFound` is a `u64`. */
  datatype OrmError =
    | NotFound(what: string, id: Option<nat>)
    | BadInput(message: string)
    | QueryError(message: string)
    | Deserialisation(message: string)
    | NoChange(message: string)
    | Unknown

  /** The SQLite parameter `?k`, which binds the k-th replacement (1-based). */
  function Placeholder(k: nat): string {
    "?" + Decimal(k)
  }

  /** The parameter reads back as its number. */
  lemma PlaceholderReadsBack(k: nat)
    ensures |Placeholder(k)| > 1 && Placeholder(k)[0] == '?'
    ensures AllDigits(Placeholder(k)[1..]) && DigitsValue(Placeholder(k)[1..]) == k
    ensures Count('?', Placeholder(k)) == 1
  {
    assert Placeholder(k)[1..] == Decimal(k);
    DecimalRoundTrip(k);
    CountConcat('?', "?", Decimal(k));
    CountDigits('?', Decimal(k));
  }

  /** `Orm::placeholders(columns)`: "?1, ?2, ..., ?n". */
  function Placeholders(columns: nat): string {
    Join(", ", seq(columns, i requires 0 <= i => Placeholder(i + 1)))
  }

  /** No columns, no placeholders; one adds "?1"; each further column appends
      ", ?k" with the next number. */
  lemma PlaceholdersGrow(n: nat)
    ensures Placeholders(0) == ""
    ensures Placeholders(1) == "?1"
    ensures n >= 1 ==> Placeholders(n + 1) == Placeholders(n) + ", " + Placeholder(n + 1)
  {
    assert Decimal(1) == "1";
    if n >= 1 {
      var parts := seq(n, i requires 0 <= i => Placeholder(i + 1));
      assert seq(n + 1, i requires 0 <= i => Placeholder(i + 1)) == parts + [Placeholder(n + 1)];
      JoinAppend(", ", parts, Placeholder(n + 1));
    }
  }

  /** `placeholders(n)` holds exactly n parameters. */
  lemma PlaceholdersCount(n: nat)
    ensures Count('?', Placeholders(n)) == n
  {
    var parts := seq(n, i requires 0 <= i => Placeholder(i + 1));
    forall i | 0 <= i < n
      ensures Count('?', parts[i]) == 1
    {
      PlaceholderReadsBack(i + 1);
    }
    CountJoin('?', ", ", parts);
  }

  /** One "column = ?k" assignment. */
  function Assignment(column: string, k: nat): string {
    column + " = " + Placeholder(k)
  }

  /** `Orm::update_placeholders(columns)`: "c1 = ?1, c2 = ?2, ...". */
  function UpdatePlaceholders(columns: seq<string>): string {
    Join(", ", seq(|columns|, i requires 0 <= i < |columns| => Assignment(columns[i], i + 1)))
  }

  /** The assignments follow the columns in order: each further column appends
      ", column = ?k" with its own 1-based position. */
  lemma UpdatePlaceholdersGrow(columns: seq<string>, column: string)
    ensures UpdatePlaceholders([]) == ""
    ensures UpdatePlaceholders([column]) == column + " = ?1"
    ensures |columns| >= 1 ==>
      UpdatePlaceholders(columns + [column]) == UpdatePlaceholders(columns) + ", " + Assignment(column, |columns| + 1)
  {
    assert Decimal(1) == "1";
    assert seq(1, i requires 0 <= i < 1 => Assignment([column][i], i + 1)) == [Assignment(column, 1)];
    if |columns| >= 1 {
      var all := columns + [column];
      var parts := seq(|columns|, i requires 0 <= i < |columns| => Assignment(columns[i], i + 1));
      assert seq(|all|, i requires 0 <= i < |all| => Assignment(all[i], i + 1)) == parts + [Assignment(column, |columns| + 1)];
      JoinAppend(", ", parts, Assignment(column, |columns| + 1));
    }
  }

  /** With column names free of '?' the assignment list holds one parameter per column. */
  lemma UpdatePlaceholdersCount(columns: seq<string>)
    requires forall i :: 0 <= i < |columns| ==> '?' !in columns[i]
    ensures Count('?', UpdatePlaceholders(columns)) == |columns|
  {
    var parts := seq(|columns|, i requires 0 <= i < |columns| => Assignment(columns[i], i + 1));
    forall i | 0 <= i < |columns|
      ensures Count('?', parts[i]) == 1
    {
      PlaceholderReadsBack(i + 1);
      CountAbsent('?', columns[i] + " = ");
      CountConcat('?', columns[i] + " = ", Placeholder(i + 1));
    }
    CountJoin('?', ", ", parts);
  }

  /** `add_if_present!`: a present field pushes its column name and its value's
      text, an absent one pushes nothing. */
  method AddIfPresent(columns: seq<string>, replacements: seq<string>, field: string, value: Option<string>)
    returns (columns': seq<string>, replacements': seq<string>)
    ensures |columns'| - |columns| == |replacements'| - |replacements| <= 1
    ensures value.None? ==> columns' == columns && replacements' == replacements
    ensures value.Some? ==> columns' == columns + [field] && replacements' == replacements + [value.value]
  {
    columns', replacements' := columns, replacements;
    if value.Some? {
      columns' := columns' + [field];
      replacements' := replacements' + [value.value];
    }
  }

  /** `to_string` of an optional number. */
  function NumberText(n: Option<nat>): (r: Option<string>)
    ensures r.Some? <==> n.Some?
    ensures n.Some? ==> AllDigits(r.value) && DigitsValue(r.value) == n.value
  {
    DecimalRoundTrip(if n.Some? then n.value else 0);
    if n.Some? then Some(Decimal(n.value)) else None
  }

  /** An `insert ... (columns, created_at[, updated_at]) values (placeholders, now...)`:
      the column list, the placeholder list and the values bound to it. */
  datatype Insert = Insert(table: string, columns: seq<string>, placeholders: string, replacements: seq<string>)

  /** Every column has its value and every placeholder its replacement, in order. */
  predicate WellBound(q: Insert) {
    |q.columns| == |q.replacements| && q.placeholders == Placeholders(|q.columns|)
  }

  /** A well-bound insert has exactly one parameter per bound value. */
  lemma WellBoundArity(q: Insert)
    requires WellBound(q)
    ensures Count('?', q.placeholders) == |q.replacements|
  {
    PlaceholdersCount(|q.columns|);
  }
}
