/** The `bits` table record of the `tables` crate: its constructors and the
    column/value list of its insert. */
module TablesBits {
  import opened Wrappers
  import opened Text
  import opened Tables

  /** A `bits` row; `number` is a `u32` and `user_id` a `u64`. */
  datatype Bit = Bit(id: nat, userId: Option<nat>, number: nat, message: Option<string>, createdAt: string)

  /** `Bit::new()`, also its `Default`. */
  function New(): Bit {
    Bit(0, None, 0, None, "")
  }

  /** `Bit::from(user_id, number, message)`. */
  function From(userId: nat, number: nat, message: Option<string>): Bit {
    Bit(0, Some(userId), number, message, "")
  }

  /** `Bit::from_anonymous(number, message)`. */
  function FromAnonymous(number: nat, message: Option<string>): Bit {
    Bit(0, None, number, message, "")
  }

  /** The constructors differ only in the cheering user. */
  lemma ConstructorsAgree(userId: nat, number: nat, message: Option<string>)
    ensures From(userId, number, message) == FromAnonymous(number, message).(userId := Some(userId))
    ensures FromAnonymous(0, None) == New()
  {
  }

  /** The value written to a column of `bits`, as text. */
  function ColumnValue(b: Bit, column: string): Option<string> {
    if column == "number" then Some(Decimal(b.number))
    else if column == "user_id" then NumberText(b.userId)
    else if column == "message" then b.message
    else None
  }

  /** `create`: zero bits are refused; otherwise "number", then "user_id" and
      "message" when present, each bound to its own value, one placeholder per
      column. */
  method Create(b: Bit) returns (r: Result<Insert, OrmError>)
    ensures b.number == 0 <==> r.Failure?
    ensures b.number == 0 ==> r.error == BadInput("Bits number cannot be 0")
    ensures b.number > 0 ==>
      r.Success? && r.value.table == "bits" && WellBound(r.value)
      && r.value.columns == ["number"] + (if b.userId.Some? then ["user_id"] else [])
                            + (if b.message.Some? then ["message"] else [])
      && forall i :: 0 <= i < |r.value.columns| ==> ColumnValue(b, r.value.columns[i]) == Some(r.value.replacements[i])
  {
    if b.number == 0 {
      return Failure(BadInput("Bits number cannot be 0"));
    }
    var columns := ["number"];
    var replacements := [Decimal(b.number)];
    if b.userId.Some? {
      columns := columns + ["user_id"];
      replacements := replacements + [Decimal(b.userId.value)];
    }
    columns, replacements := AddIfPresent(columns, replacements, "message", b.message);
    return Success(Insert("bits", columns, Placeholders(|columns|), replacements));
  }
}
