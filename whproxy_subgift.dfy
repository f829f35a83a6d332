/** The proxy's gifted-subscription record and its builder; the Option-taking
    setters leave the field alone when given nothing. */
module WhproxySubgift {
  import opened Wrappers
  import opened SubTiers

  /** A gifted-subscription record; the user and display name are lists of
      linked record values. */
  datatype Subgift = Subgift(
    id: nat,
    userId: Option<seq<string>>,
    displayName: Option<seq<string>>,
    number: nat,
    tier: SubTier,
    createdAt: string)

  /** `Subgift::default()`, with the RFC 3339 current time passed in. */
  function Default(now: string): Subgift {
    Subgift(0, None, None, 0, Other, now)
  }

  /** `Subgift::new(user_id, display_name, number, tier)`. */
  function New(userId: Option<seq<string>>, displayName: Option<seq<string>>, number: nat, tier: SubTier, now: string): Subgift {
    Subgift(0, userId, displayName, number, tier, now)
  }

  datatype SubgiftBuilder = SubgiftBuilder(subgift: Subgift)

  /** `Subgift::builder()`, i.e. `SubgiftBuilder::default()`. */
  function Builder(now: string): SubgiftBuilder {
    SubgiftBuilder(New(None, None, 0, Tier1, now))
  }

  /** The builder starts at tier 1, whereas the record's own default is `Other`;
      otherwise they agree. */
  lemma BuilderDefaultIsTierOne(now: string)
    ensures var s := Build(Builder(now));
      s.id == 0 && s.number == 0 && s.tier == Tier1 && s.userId.None? && s.displayName.None?
    ensures Default(now).tier == Other
    ensures Build(Builder(now)) == Default(now).(tier := Tier1)
  {
  }

  function UserId(b: SubgiftBuilder, userId: Option<string>): SubgiftBuilder {
    if userId.Some? then SubgiftBuilder(b.subgift.(userId := Some([userId.value]))) else b
  }

  function DisplayName(b: SubgiftBuilder, displayName: Option<string>): SubgiftBuilder {
    if displayName.Some? then SubgiftBuilder(b.subgift.(displayName := Some([displayName.value]))) else b
  }

  function Number(b: SubgiftBuilder, number: nat): SubgiftBuilder {
    SubgiftBuilder(b.subgift.(number := number))
  }

  function Tier(b: SubgiftBuilder, tier: SubTier): SubgiftBuilder {
    SubgiftBuilder(b.subgift.(tier := tier))
  }

  function Build(b: SubgiftBuilder): Subgift {
    b.subgift
  }

  /** A given user or name replaces the field with that one value, a missing
      one changes nothing; number and tier always overwrite; each setter touches
      its own field only. */
  lemma SettersTouchOwnField(b: SubgiftBuilder, x: string, n: nat, t: SubTier)
    ensures Build(UserId(b, Some(x))) == b.subgift.(userId := Some([x]))
    ensures UserId(b, None) == b
    ensures Build(DisplayName(b, Some(x))) == b.subgift.(displayName := Some([x]))
    ensures DisplayName(b, None) == b
    ensures Build(Number(b, n)) == b.subgift.(number := n)
    ensures Build(Tier(b, t)) == b.subgift.(tier := t)
    ensures Build(UserId(UserId(b, Some(x)), None)).userId == Some([x])
  {
  }
}
