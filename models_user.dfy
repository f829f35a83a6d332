/** The application's user model and its builder. The builder is consumed and
    returned by value; its list setters extend the list already held. */
module ModelsUser {
  import opened Wrappers
  import opened SubTiers

  /** A user; ids of gifted subscriptions and of cheers are record ids. */
  datatype User = User(
    id: nat,
    displayName: string,
    twitchId: string,
    createdAt: string,
    followerSince: Option<string>,
    subscriberSince: Option<string>,
    subscriptionTier: Option<SubTier>,
    subgiftTotal: Option<nat>,
    subgifts: Option<seq<string>>,
    bits: Option<seq<string>>)

  /** `User::new(name, twitch_id)`, with the RFC 3339 rendering of the current
      time passed in. */
  function New(name: string, twitchId: string, now: string): User {
    User(0, name, twitchId, now, None, None, None, None, None, None)
  }

  /** `User::default()`. */
  function Default(now: string): User {
    User(0, "", "", now, None, None, None, None, None, None)
  }

  /** A new user has id 0, the name and Twitch id given, and no optional field;
      the default user is the nameless new one. */
  lemma NewIsBlank(name: string, twitchId: string, now: string)
    ensures var u := New(name, twitchId, now);
      u.id == 0 && u.displayName == name && u.twitchId == twitchId && u.createdAt == now
      && u.followerSince.None? && u.subscriberSince.None? && u.subscriptionTier.None?
      && u.subgiftTotal.None? && u.subgifts.None? && u.bits.None?
    ensures Default(now) == New("", "", now)
  {
  }

  datatype UserBuilder = UserBuilder(user: User)

  /** `User::builder()`, i.e. `UserBuilder::default()`. */
  function Builder(now: string): UserBuilder {
    UserBuilder(New("", "", now))
  }

  function DisplayName(b: UserBuilder, name: string): UserBuilder {
    UserBuilder(b.user.(displayName := name))
  }

  function TwitchId(b: UserBuilder, id: string): UserBuilder {
    UserBuilder(b.user.(twitchId := id))
  }

  /** `followed_at`, given the RFC 3339 rendering of the date. */
  function FollowedAt(b: UserBuilder, date: string): UserBuilder {
    UserBuilder(b.user.(followerSince := Some(date)))
  }

  /** `subscribed_at`, given the RFC 3339 rendering of the date. */
  function SubscribedAt(b: UserBuilder, date: string): UserBuilder {
    UserBuilder(b.user.(subscriberSince := Some(date)))
  }

  function Tier(b: UserBuilder, tier: SubTier): UserBuilder {
    UserBuilder(b.user.(subscriptionTier := Some(tier)))
  }

  function SubgiftTotal(b: UserBuilder, total: nat): UserBuilder {
    UserBuilder(b.user.(subgiftTotal := Some(total)))
  }

  /** A held list is extended, an absent one is set. */
  function Extend(list: Option<seq<string>>, more: seq<string>): Option<seq<string>> {
    if list.Some? then Some(list.value + more) else Some(more)
  }

  function Subgifts(b: UserBuilder, ids: seq<string>): UserBuilder {
    UserBuilder(b.user.(subgifts := Extend(b.user.subgifts, ids)))
  }

  function Bits(b: UserBuilder, ids: seq<string>): UserBuilder {
    UserBuilder(b.user.(bits := Extend(b.user.bits, ids)))
  }

  function Build(b: UserBuilder): User {
    b.user
  }

  /** The ids a list holds, none when it is absent. */
  function Held(list: Option<seq<string>>): seq<string> {
    if list.Some? then list.value else []
  }

  /** Extending adds to what is held, in order. */
  lemma ExtendHeld(list: Option<seq<string>>, xs: seq<string>, ys: seq<string>)
    ensures Extend(list, xs) == Some(Held(list) + xs)
    ensures Extend(Extend(list, xs), ys) == Some(Held(list) + xs + ys)
  {
    if list.None? {
      assert Held(list) + xs == xs;
    }
  }

  /** `subgifts` sets the list when there is none and appends otherwise, so two
      calls keep both lists in call order; `bits` follows the same rule, and
      neither touches any other field. */
  lemma ListsSetThenAppend(b: UserBuilder, xs: seq<string>, ys: seq<string>)
    ensures b.user.subgifts.None? ==> Build(Subgifts(b, xs)).subgifts == Some(xs)
    ensures Build(Subgifts(Subgifts(b, xs), ys)).subgifts == Some(Held(b.user.subgifts) + xs + ys)
    ensures Build(Subgifts(b, xs)) == b.user.(subgifts := Some(Held(b.user.subgifts) + xs))
    ensures b.user.bits.None? ==> Build(Bits(b, xs)).bits == Some(xs)
    ensures Build(Bits(Bits(b, xs), ys)).bits == Some(Held(b.user.bits) + xs + ys)
    ensures Build(Bits(b, xs)) == b.user.(bits := Some(Held(b.user.bits) + xs))
  {
    ExtendHeld(b.user.subgifts, xs, ys);
    ExtendHeld(b.user.bits, xs, ys);
  }

  /** Every other setter overwrites its own field only, and `build` returns the
      accumulated user. */
  lemma SettersTouchOwnField(b: UserBuilder, s: string, tier: SubTier, total: nat)
    ensures Build(DisplayName(b, s)) == b.user.(displayName := s)
    ensures Build(TwitchId(b, s)) == b.user.(twitchId := s)
    ensures Build(FollowedAt(b, s)) == b.user.(followerSince := Some(s))
    ensures Build(SubscribedAt(b, s)) == b.user.(subscriberSince := Some(s))
    ensures Build(Tier(b, tier)) == b.user.(subscriptionTier := Some(tier))
    ensures Build(SubgiftTotal(b, total)) == b.user.(subgiftTotal := Some(total))
    ensures Build(UserBuilder(b.user)) == b.user
  {
  }
}
