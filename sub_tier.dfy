/** The application's subscription tier: its display names, which are also
    its serialised names, and its translation from Twitch's tier type. */
module SubTiers {
  import opened Wrappers
  import TablesUser

  datatype SubTier = Tier1 | Tier2 | Tier3 | Prime | Other

  /** `Display`: each variant prints as its own name. */
  function Display(t: SubTier): string {
    match t
    case Tier1 => "Tier1"
    case Tier2 => "Tier2"
    case Tier3 => "Tier3"
    case Prime => "Prime"
    case Other => "Other"
  }

  /** Deserialisation by the `serde(rename)` names; any other string is refused. */
  function Parse(s: string): Option<SubTier> {
    if s == "Tier1" then Some(Tier1)
    else if s == "Tier2" then Some(Tier2)
    else if s == "Tier3" then Some(Tier3)
    else if s == "Prime" then Some(Prime)
    else if s == "Other" then Some(Other)
    else None
  }

  /** The serialised names are the display names: printing then parsing gives
      the variant back, and a parsed name prints as itself. */
  lemma ParseDisplayRoundTrip(t: SubTier, s: string)
    ensures Parse(Display(t)) == Some(t)
    ensures Parse(s).Some? ==> Display(Parse(s).value) == s
  {
  }

  /** Distinct variants print differently. */
  lemma DisplayInjective(a: SubTier, b: SubTier)
    ensures Display(a) == Display(b) ==> a == b
  {
    ParseDisplayRoundTrip(a, "");
    ParseDisplayRoundTrip(b, "");
  }

  /** The names the `users` table accepts are exactly the display names. */
  lemma DisplayAcceptedByTable(t: SubTier, s: string)
    ensures TablesUser.ValidateTier(Display(t)) == Pass
    ensures TablesUser.IsTierName(s) <==> Parse(s).Some?
  {
  }

  /** A JSON value, as far as `From<SubTier> for serde_json::Value` needs one. */
  datatype Json = JsonString(text: string)

  /** A tier becomes the JSON string of its display name. */
  function ToJson(t: SubTier): (j: Json)
    ensures j.JsonString? && Parse(j.text) == Some(t)
  {
    ParseDisplayRoundTrip(t, "");
    JsonString(Display(t))
  }

  /** Twitch's `SubscriptionTier`, whose `Other` carries the unknown tier string. */
  datatype TwitchTier = TwitchTier1 | TwitchTier2 | TwitchTier3 | TwitchPrime | TwitchOther(name: string)

  /** `SubTier::from`. */
  function FromTwitch(t: TwitchTier): SubTier {
    match t
    case TwitchTier1 => Tier1
    case TwitchTier2 => Tier2
    case TwitchTier3 => Tier3
    case TwitchPrime => Prime
    case TwitchOther(_) => Other
  }

  /** Named Twitch tiers keep their name; every unknown tier becomes `Other`,
      whatever its string; and only those do. */
  lemma FromTwitchKeepsNames(name: string, t: TwitchTier)
    ensures FromTwitch(TwitchTier1) == Tier1 && FromTwitch(TwitchTier2) == Tier2
    ensures FromTwitch(TwitchTier3) == Tier3 && FromTwitch(TwitchPrime) == Prime
    ensures FromTwitch(TwitchOther(name)) == Other
    ensures FromTwitch(t) == Other <==> t.TwitchOther?
  {
  }
}
