/** Rust's `std::net::IpAddr`, and the request-header text the middlewares read. */
module Net {
  import opened Wrappers
  import opened Text

  type Octet = x: nat | x < 256
  type Segment = x: nat | x < 65536

  /** `IpAddr::V4` by its four octets, `IpAddr::V6` by its eight 16-bit segments. */
  datatype IpAddr = V4(a: Octet, b: Octet, c: Octet, d: Octet) | V6(segments: seq<Segment>)

  /** A request header's value: `to_str()` succeeds only for visible ASCII text. */
  datatype HeaderText = Readable(text: string) | Unreadable

  /** A header a middleware inserts into a response. */
  datatype Header = Header(name: string, value: string)

  /** The client key both middlewares derive from `X-Forwarded-For`: the header
      text (or "unknown" when it is absent or unreadable), cut at the first comma
      and trimmed. */
  function ForwardedClient(xff: Option<HeaderText>): (key: string)
    ensures ',' !in key
    ensures key != [] ==> !IsWhitespace(key[0]) && !IsWhitespace(key[|key| - 1])
    ensures xff.None? || xff == Some(Unreadable) ==> key == "unknown"
  {
    var raw := if xff.Some? && xff.value.Readable? then xff.value.text else "unknown";
    if raw == "unknown" then UnknownIsPlain(raw); KeyOf(raw) else KeyOf(raw)
  }

  /** The first comma-separated field of a header text, trimmed. */
  function KeyOf(raw: string): (key: string)
    ensures ',' !in key
    ensures key != [] ==> !IsWhitespace(key[0]) && !IsWhitespace(key[|key| - 1])
  {
    var first := FirstField(raw, ',');
    TrimKeepsOnly(first);
    TrimEdges(first);
    Trim(first)
  }

  /** The fallback text "unknown" has no comma and no edge whitespace, so the
      split and the trim leave it as it is. */
  lemma UnknownIsPlain(raw: string)
    requires raw == "unknown"
    ensures KeyOf(raw) == raw
  {
    assert ',' !in raw && !IsWhitespace(raw[0]) && !IsWhitespace(raw[|raw| - 1]);
    FirstFieldWithoutSep(raw, ',');
    TrimPlain(raw);
  }

  /** The key is made of the header's own characters, and a header holding one
      bare address (no comma, no surrounding whitespace) yields exactly that text. */
  lemma ForwardedClientOfText(text: string)
    ensures forall c :: c in ForwardedClient(Some(Readable(text))) ==> c in text
    ensures ',' !in text && (text == [] || (!IsWhitespace(text[0]) && !IsWhitespace(text[|text| - 1])))
      ==> ForwardedClient(Some(Readable(text))) == text
  {
    var first := FirstField(text, ',');
    TrimKeepsOnly(first);
    assert forall c :: c in first ==> c in text;
    if ',' !in text && (text == [] || (!IsWhitespace(text[0]) && !IsWhitespace(text[|text| - 1]))) {
      FirstFieldWithoutSep(text, ',');
      TrimPlain(text);
    }
  }
}
