/** The `subgifts` table record of the `tables` crate: its constructors, its
    validation and the column/value list of its insert. */
module TablesSubgifts {
  import opened Wrappers
  import opened Text
  import opened Tables
  import opened TablesUser

  /** A `subgifts` row; `number` is a `u16` and `user_id` a `u64`. */
  datatype Subgift = Subgift(id: nat, userId: Option<nat>, number: nat, tier: string, createdAt: string)

  /** `Subgift::new()`, also its `Default`. */
  function New(): Subgift {
    Subgift(0, None, 0, "", "")
  }

  /** `Subgift::from(user_id, number, tier)`. */
  function From(userId: nat, number: nat, tier: string): Subgift {
    Subgift(0, Some(userId), number, tier, "")
  }

  /** `Subgift::from_anonymous(number, tier)`. */
  function FromAnonymous(number: nat, tier: string): Subgift {
    Subgift(0, None, number, tier, "")
  }

  /** The constructors differ only in the gifting user. */
  lemma ConstructorsAgree(userId: nat, number: nat, tier: string)
    ensures From(userId, number, tier) == FromAnonymous(number, tier).(userId := Some(userId))
    ensures FromAnonymous(0, "") == New()
    ensures Validate(New()) == Fail(BadInput("Subgifts number cannot be 0"))
  {
  }

  /** `validate`: the number first, then the tier name. */
  function Validate(s: Subgift): Outcome<OrmError> {
    if s.number == 0 then Fail(BadInput("Subgifts number cannot be 0"))
    else ValidateTier(s.tier)
  }

  /** A subgift is valid exactly when it gifts at least one subscription of a
      known tier; a zero number is reported before a bad tier. */
  lemma ValidateExactly(s: Subgift)
    ensures Validate(s).Pass? <==> s.number > 0 && IsTierName(s.tier)
    ensures s.number == 0 ==> Validate(s) == Fail(BadInput("Subgifts number cannot be 0"))
    ensures s.number > 0 && !IsTierName(s.tier) ==> Validate(s) == Fail(BadInput("Invalid sub tier name"))
  {
  }

  /** The value written to a column of `subgifts`, as text. */
  function ColumnValue(s: Subgift, column: string): Option<string> {
    if column == "number" then Some(Decimal(s.number))
    else if column == "tier" then Some(s.tier)
    else if column == "user_id" then NumberText(s.userId)
    else None
  }

  /** `create`: validation first; then "number" and "tier", and "user_id" when
      the gift has a user, each bound to its own value, one placeholder per
      column. */
  method Create(s: Subgift) returns (r: Result<Insert, OrmError>)
    ensures Validate(s).Fail? ==> r == Failure(Validate(s).error)
    ensures Validate(s).Pass? ==>
      r.Success? && r.value.table == "subgifts" && WellBound(r.value)
      && r.value.columns == ["number", "tier"] + (if s.userId.Some? then ["user_id"] else [])
      && forall i :: 0 <= i < |r.value.columns| ==> ColumnValue(s, r.value.columns[i]) == Some(r.value.replacements[i])
  {
    var valid := Validate(s);
    if valid.Fail? {
      return Failure(valid.error);
    }
    var columns := ["number", "tier"];
    var replacements := [Decimal(s.number), s.tier];
    if s.userId.Some? {
      columns := columns + ["user_id"];
      replacements := replacements + [Decimal(s.userId.value)];
    }
    return Success(Insert("subgifts", columns, Placeholders(|columns|), replacements));
  }
}
