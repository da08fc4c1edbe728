/** The shared decoding helper of the endpoint schemas: a field that the
    weather API sends either as a JSON number or as a JSON string holding
    a number is read as a `usize`. */
module Endpoints {
  import opened Wrappers
  import opened Strings
  import Json

  /** The error of a serde `Deserializer`: one built with `Error::custom` from
      a message, or the failure the deserializer itself reported. */
  datatype DeError = Custom(message: string) | Deserializer(detail: string)

  const StringMessage: string := "Failed to parse string into u64"
  const NumberMessage: string := "Failed to parse number into u64"
  const ValueMessage: string := "Failed to parse value into u64"

  /** `deserialize_force_usize`, given the outcome of deserialising the field
      as a `serde_json::Value`. */
  function DeserializeForceUsize(input: Result<Json.Value, DeError>): (r: Result<nat, DeError>)
    ensures r.Success? ==> r.value <= UsizeMax
    ensures input.Failure? ==> r == Failure(input.error)
    ensures input.Success? && input.value.String? ==>
      && (r.Success? <==> ParseUsize(input.value.s).Some?)
      && (r.Success? ==> Some(r.value) == ParseUsize(input.value.s))
      && (r.Failure? ==> r.error == Custom(StringMessage))
    ensures input.Success? && input.value.Number? ==>
      && (r.Success? <==> input.value.n.PosInt?)
      && (r.Success? ==> r.value == input.value.n.u as nat)
      && (r.Failure? ==> r.error == Custom(NumberMessage))
    ensures input.Success? && !input.value.String? && !input.value.Number? ==>
      r == Failure(Custom(ValueMessage))
  {
    match input
    case Failure(err) => Failure(err)
    case Success(v) =>
      match v
      case String(s) =>
        (match ParseUsize(s)
         case Some(n) => Success(n)
         case None => Failure(Custom(StringMessage)))
      case Number(num) =>
        (match num
         case PosInt(u) => Success(u as nat)
         case _ => Failure(Custom(NumberMessage)))
      case _ => Failure(Custom(ValueMessage))
  }

  /** Every `usize` is read back whichever way the API encodes it: as a JSON
      number, as its decimal numeral in a JSON string, or with a leading `+`. */
  lemma ForceUsizeRoundTrip(n: nat)
    requires n <= UsizeMax
    ensures DeserializeForceUsize(Success(Json.Number(Json.PosInt(n as Json.U64)))) == Success(n)
    ensures DeserializeForceUsize(Success(Json.String(NatToDecimal(n)))) == Success(n)
    ensures DeserializeForceUsize(Success(Json.String("+" + NatToDecimal(n)))) == Success(n)
  {
    DecimalRoundTrip(n);
  }

  /** A negative or fractional number, and a negative or empty string, are
      refused with the message for their kind. */
  lemma ForceUsizeRejectsSigned(i: Json.NegI64, literal: string, s: string)
    ensures DeserializeForceUsize(Success(Json.Number(Json.NegInt(i)))) == Failure(Custom(NumberMessage))
    ensures DeserializeForceUsize(Success(Json.Number(Json.Float(literal)))) == Failure(Custom(NumberMessage))
    ensures DeserializeForceUsize(Success(Json.String("-" + s))) == Failure(Custom(StringMessage))
    ensures DeserializeForceUsize(Success(Json.String(""))) == Failure(Custom(StringMessage))
  {
    assert ("-" + s)[0] == '-';
  }
}
