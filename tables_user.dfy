/** The `users` table record of the `tables` crate: its constructors, the
    builder that normalises the subscription fields, the validation run before
    every write, and the column/value lists of its insert and update. */
module TablesUser {
  import opened Wrappers
  import opened Text
  import opened Tables

  /** A `users` row; `id` and `twitch_id` are `u64`, `subgift_total` a `usize`. */
  datatype User = User(
    id: nat,
    displayName: string,
    twitchId: nat,
    followerSince: Option<string>,
    subscriberSince: Option<string>,
    subgiftTotal: Option<nat>,
    subscriptionTier: Option<string>,
    createdAt: string,
    updatedAt: string,
    deletedAt: Option<string>)

  /** `User::new()`. */
  function New(): User {
    User(0, "", 0, None, None, None, None, "", "", None)
  }

  /** `User::from(display_name, twitch_id)`. */
  function From(displayName: string, twitchId: nat): User {
    User(0, displayName, twitchId, None, None, None, None, "", "", None)
  }

  /** `From` is the empty user with a name and a Twitch id, and such a user is
      valid. */
  lemma FromIsNamedBlank(displayName: string, twitchId: nat)
    ensures From(displayName, twitchId) == New().(displayName := displayName, twitchId := twitchId)
    ensures From("", 0) == New()
    ensures Validate(From(displayName, twitchId)) == Pass
  {
  }

  // ------------------------------------------------------------------------
  // Validation

  /** The subscription tier names the table accepts. */
  predicate IsTierName(tier: string) {
    tier == "Tier1" || tier == "Tier2" || tier == "Tier3" || tier == "Prime" || tier == "Other"
  }

  function ValidateTier(tier: string): (r: Outcome<OrmError>)
    ensures r.Pass? <==> IsTierName(tier)
    ensures r.Fail? ==> r.error == BadInput("Invalid sub tier name")
  {
    if tier == "Tier1" || tier == "Tier2" || tier == "Tier3" || tier == "Prime" || tier == "Other" then Pass
    else Fail(BadInput("Invalid sub tier name"))
  }

  /** `validate`: the tier name first, then a date without a tier, then a tier
      without a date. */
  function Validate(u: User): Outcome<OrmError> {
    if u.subscriptionTier.Some? && ValidateTier(u.subscriptionTier.value).Fail? then
      ValidateTier(u.subscriptionTier.value)
    else if u.subscriberSince.Some? && u.subscriptionTier.None? then
      Fail(BadInput("subscriber_since requires subscriber_tier to be set"))
    else if u.subscriptionTier.Some? && u.subscriberSince.None? then
      Fail(BadInput("subscriber_tier requires subscriber_since to be set"))
    else Pass
  }

  /** A user is valid exactly when the date and the tier are both absent or both
      present with a known tier name; each failure carries its own message, and
      a bad tier name is reported even when the date is missing too. */
  lemma ValidateExactly(u: User)
    ensures Validate(u).Pass? <==>
      (u.subscriberSince.None? && u.subscriptionTier.None?)
      || (u.subscriberSince.Some? && u.subscriptionTier.Some? && IsTierName(u.subscriptionTier.value))
    ensures u.subscriptionTier.Some? && !IsTierName(u.subscriptionTier.value) ==>
      Validate(u) == Fail(BadInput("Invalid sub tier name"))
    ensures u.subscriberSince.Some? && u.subscriptionTier.None? ==>
      Validate(u) == Fail(BadInput("subscriber_since requires subscriber_tier to be set"))
    ensures u.subscriptionTier.Some? && IsTierName(u.subscriptionTier.value) && u.subscriberSince.None? ==>
      Validate(u) == Fail(BadInput("subscriber_tier requires subscriber_since to be set"))
    ensures Validate(u).Fail? ==> Validate(u).error.BadInput?
  {
  }

  // ------------------------------------------------------------------------
  // UserBuilder

  datatype UserBuilder = UserBuilder(user: User)

  /** `User::builder(display_name, twitch_id)`. */
  function Builder(displayName: string, twitchId: nat): UserBuilder {
    UserBuilder(From(displayName, twitchId))
  }

  function Follow(b: UserBuilder, date: string): UserBuilder {
    UserBuilder(b.user.(followerSince := Some(date)))
  }

  function Subscribe(b: UserBuilder, date: string): UserBuilder {
    UserBuilder(b.user.(subscriberSince := Some(date)))
  }

  function Tier(b: UserBuilder, tier: string): UserBuilder {
    UserBuilder(b.user.(subscriptionTier := Some(tier)))
  }

  function CreatedAt(b: UserBuilder, createdAt: string): UserBuilder {
    UserBuilder(b.user.(createdAt := createdAt))
  }

  /** `build()`, with `now_utc()` passed in: a date without a tier gets
      "Tier1", a tier without a date gets the current time. */
  function Build(b: UserBuilder, nowUtc: string): User {
    var u := if b.user.subscriberSince.Some? && b.user.subscriptionTier.None?
             then b.user.(subscriptionTier := Some("Tier1")) else b.user;
    if u.subscriptionTier.Some? && u.subscriberSince.None? then u.(subscriberSince := Some(nowUtc)) else u
  }

  /** After `build` the date is present exactly when the tier is; nothing but
      those two fields changes, a consistent user is returned as it is, and the
      built user fails validation only on an unknown tier name. */
  lemma BuildNormalises(b: UserBuilder, nowUtc: string)
    ensures var u := Build(b, nowUtc);
      (u.subscriberSince.Some? <==> u.subscriptionTier.Some?)
      && u.(subscriberSince := b.user.subscriberSince, subscriptionTier := b.user.subscriptionTier) == b.user
      && ((b.user.subscriberSince.Some? <==> b.user.subscriptionTier.Some?) ==> u == b.user)
      && (b.user.subscriberSince.Some? && b.user.subscriptionTier.None? ==>
            u.subscriptionTier == Some("Tier1") && u.subscriberSince == b.user.subscriberSince)
      && (b.user.subscriptionTier.Some? && b.user.subscriberSince.None? ==>
            u.subscriberSince == Some(nowUtc) && u.subscriptionTier == b.user.subscriptionTier)
      && (Validate(u).Pass? <==> u.subscriptionTier.None? || IsTierName(u.subscriptionTier.value))
  {
    ValidateExactly(Build(b, nowUtc));
  }

  /** Each setter writes its own field and no other. */
  lemma SettersTouchOwnField(b: UserBuilder, s: string)
    ensures Follow(b, s).user == b.user.(followerSince := Some(s))
    ensures Subscribe(b, s).user == b.user.(subscriberSince := Some(s))
    ensures Tier(b, s).user == b.user.(subscriptionTier := Some(s))
    ensures CreatedAt(b, s).user == b.user.(createdAt := s)
    ensures Follow(Follow(b, s), s) == Follow(b, s)
  {
  }

  // ------------------------------------------------------------------------
  // create / update

  /** The value written to a column of `users`, as text. */
  function ColumnValue(u: User, column: string): Option<string> {
    if column == "display_name" then Some(u.displayName)
    else if column == "twitch_id" then Some(Decimal(u.twitchId))
    else if column == "follower_since" then u.followerSince
    else if column == "subscriber_since" then u.subscriberSince
    else if column == "subgift_total" then NumberText(u.subgiftTotal)
    else if column == "subscription_tier" then u.subscriptionTier
    else None
  }

  /** Every column is bound to its own field's text, position by position. */
  predicate Paired(u: User, columns: seq<string>, replacements: seq<string>) {
    |columns| == |replacements| &&
    forall i :: 0 <= i < |columns| ==> ColumnValue(u, columns[i]) == Some(replacements[i])
  }

  /** The column names the optional fields contribute when present. */
  function Present(column: string, value: Option<string>): seq<string> {
    if value.Some? then [column] else []
  }

  /** The optional columns, in the order `create` and `update` add them;
      `follower_since` is added a second time at the end. */
  function OptionalColumns(u: User): seq<string> {
    Present("follower_since", u.followerSince) + Present("subscriber_since", u.subscriberSince)
    + Present("subgift_total", NumberText(u.subgiftTotal)) + Present("subscription_tier", u.subscriptionTier)
    + Present("follower_since", u.followerSince)
  }

  /** `add_if_present!` on one column of `users`: the column is bound to its
      field's text when that field is present. */
  method Bind(u: User, columns: seq<string>, replacements: seq<string>, column: string, value: Option<string>)
    returns (columns': seq<string>, replacements': seq<string>)
    requires Paired(u, columns, replacements)
    requires ColumnValue(u, column) == value
    ensures columns' == columns + Present(column, value) && Paired(u, columns', replacements')
    ensures replacements'[..|replacements|] == replacements
  {
    columns', replacements' := AddIfPresent(columns, replacements, column, value);
  }

  /** `create`: validation first; then "display_name" and "twitch_id" followed
      by the present optional fields, each bound to its own value, and one
      placeholder per column. */
  method Create(u: User) returns (r: Result<Insert, OrmError>)
    ensures Validate(u).Fail? ==> r == Failure(Validate(u).error)
    ensures Validate(u).Pass? ==>
      r.Success? && r.value.table == "users" && WellBound(r.value)
      && r.value.columns == ["display_name", "twitch_id"] + OptionalColumns(u)
      && Paired(u, r.value.columns, r.value.replacements)
  {
    var valid := Validate(u);
    if valid.Fail? {
      return Failure(valid.error);
    }
    var columns := ["display_name", "twitch_id"];
    var replacements := [u.displayName, Decimal(u.twitchId)];
    columns, replacements := AddOptional(u, columns, replacements);
    return Success(Insert("users", columns, Placeholders(|columns|), replacements));
  }

  /** The five `add_if_present!` calls shared by `create` and `update`. */
  method AddOptional(u: User, columns: seq<string>, replacements: seq<string>)
    returns (columns': seq<string>, replacements': seq<string>)
    requires Paired(u, columns, replacements)
    ensures columns' == columns + OptionalColumns(u) && Paired(u, columns', replacements')
    ensures replacements'[..|replacements|] == replacements
  {
    columns', replacements' := Bind(u, columns, replacements, "follower_since", u.followerSince);
    columns', replacements' := Bind(u, columns', replacements', "subscriber_since", u.subscriberSince);
    columns', replacements' := Bind(u, columns', replacements', "subgift_total", NumberText(u.subgiftTotal));
    columns', replacements' := Bind(u, columns', replacements', "subscription_tier", u.subscriptionTier);
    ghost var r4 := replacements';
    columns', replacements' := Bind(u, columns', replacements', "follower_since", u.followerSince);
    assert replacements'[..|r4|] == r4;
    assert replacements'[..|replacements|] == r4[..|replacements|];
  }

  /** An `update users set updated_at = now, <assignments> where id = <idPlaceholder>`. */
  datatype UpdateStatement = UpdateStatement(
    columns: seq<string>, assignments: string, idPlaceholder: string, replacements: seq<string>)

  /** `update`, given whether the row exists: a missing row is reported
      first, then validation; the assignments cover "display_name" and the
      present optional fields, and the id is bound by the parameter right after
      them. */
  method Update(u: User, found: bool) returns (r: Result<UpdateStatement, OrmError>)
    ensures !found ==> r == Failure(NotFound("update user", Some(u.id)))
    ensures found && Validate(u).Fail? ==> r == Failure(Validate(u).error)
    ensures found && Validate(u).Pass? ==>
      r.Success?
      && r.value.columns == ["display_name"] + OptionalColumns(u)
      && r.value.assignments == UpdatePlaceholders(r.value.columns)
      && |r.value.replacements| == |r.value.columns| + 1
      && Paired(u, r.value.columns, r.value.replacements[..|r.value.columns|])
      && r.value.replacements[|r.value.columns|] == Decimal(u.id)
      && r.value.idPlaceholder == Placeholder(|r.value.replacements|)
  {
    if !found {
      return Failure(NotFound("update user", Some(u.id)));
    }
    var valid := Validate(u);
    if valid.Fail? {
      return Failure(valid.error);
    }
    var columns := ["display_name"];
    var replacements := [u.displayName];
    columns, replacements := AddOptional(u, columns, replacements);
    var assignments := UpdatePlaceholders(columns);
    var idPlaceholder := Placeholder(|columns| + 1);
    ghost var bound := replacements;
    replacements := replacements + [Decimal(u.id)];
    assert replacements[..|columns|] == bound;
    return Success(UpdateStatement(columns, assignments, idPlaceholder, replacements));
  }
}
