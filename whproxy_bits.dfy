/** The proxy's cheer record and its builder; the Option-taking setters leave
    the field alone when given nothing. */
module WhproxyBits {
  import opened Wrappers

  /** A cheer record; the user and display name are lists of linked record values. */
  datatype Bits = Bits(
    id: nat,
    userId: Option<seq<string>>,
    displayName: Option<seq<string>>,
    number: nat,
    message: Option<string>)

  /** `Bits::default()`. */
  function Default(): Bits {
    Bits(0, None, None, 0, None)
  }

  /** `Bits::new()`. */
  function New(): Bits {
    Bits(0, None, None, 0, None)
  }

  datatype BitsBuilder = BitsBuilder(bits: Bits)

  /** `Bits::builder()`, i.e. `BitsBuilder::default()`. */
  function Builder(): BitsBuilder {
    BitsBuilder(New())
  }

  /** A fresh record, built or not, has id 0, no cheers and no optional field. */
  lemma FreshIsBlank()
    ensures var b := Build(Builder());
      b.id == 0 && b.number == 0 && b.userId.None? && b.displayName.None? && b.message.None?
    ensures Default() == New()
  {
  }

  function UserId(b: BitsBuilder, userId: Option<string>): BitsBuilder {
    if userId.Some? then BitsBuilder(b.bits.(userId := Some([userId.value]))) else b
  }

  function DisplayName(b: BitsBuilder, displayName: Option<string>): BitsBuilder {
    if displayName.Some? then BitsBuilder(b.bits.(displayName := Some([displayName.value]))) else b
  }

  function Number(b: BitsBuilder, number: nat): BitsBuilder {
    BitsBuilder(b.bits.(number := number))
  }

  function Message(b: BitsBuilder, message: Option<string>): BitsBuilder {
    if message.Some? then BitsBuilder(b.bits.(message := message)) else b
  }

  function Build(b: BitsBuilder): Bits {
    b.bits
  }

  /** A given user or name becomes a one-value list and a given message is set,
      a missing one changes nothing (an earlier message survives); the number
      always overwrites; each setter touches its own field only. */
  lemma SettersTouchOwnField(b: BitsBuilder, x: string, n: nat)
    ensures Build(UserId(b, Some(x))) == b.bits.(userId := Some([x]))
    ensures UserId(b, None) == b
    ensures Build(DisplayName(b, Some(x))) == b.bits.(displayName := Some([x]))
    ensures DisplayName(b, None) == b
    ensures Build(Message(b, Some(x))) == b.bits.(message := Some(x))
    ensures Message(b, None) == b
    ensures Build(Message(Message(b, Some(x)), None)).message == Some(x)
    ensures Build(Number(b, n)) == b.bits.(number := n)
  {
  }
}
