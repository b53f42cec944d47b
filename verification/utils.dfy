/**
 * Classifying a decoded response body: the success shape first, then the
 * rejection shape, and a deserialization error when neither matches.
 */
module ClientUtils {
  import opened Wrappers
  import opened Json
  import opened ClientError

  /** The untagged enum: a body is either the operation's result or a rejection. */
  datatype ResponseFromAliyun<R> = Normal(result: R) | Rejection(rejection: AliyunRejection)

  /** The message serde gives when no variant of an untagged enum matches. */
  const NoVariantMatched: DeserializationError :=
    DeserializationError("data did not match any variant of untagged enum ResponseFromAliyun")

  /**
   * The derived untagged `Deserialize`: variants are tried in declaration order
   * on the same value. `decodeResult` is the operation's own decoder for `R`.
   */
  function DecodeResponse<R>(value: Json, decodeResult: Json -> Option<R>): (r: Result<ResponseFromAliyun<R>, DeserializationError>)
    ensures decodeResult(value).Some? ==> r == Ok(Normal(decodeResult(value).value))
    ensures decodeResult(value).None? && DecodeRejection(value).Some? ==>
      r == Ok(Rejection(DecodeRejection(value).value))
    ensures decodeResult(value).None? && DecodeRejection(value).None? ==> r == Err(NoVariantMatched)
  {
    match decodeResult(value)
    case Some(result) => Ok(Normal(result))
    case None =>
      match DecodeRejection(value)
      case Some(rejection) => Ok(Rejection(rejection))
      case None => Err(NoVariantMatched)
  }

  /** `parse_json_value`: a successful result, a rejection, or a decode failure. */
  function ParseJsonValue<R>(value: Json, decodeResult: Json -> Option<R>): (r: Result<R, OperationError>)
    ensures r.Ok? <==> decodeResult(value).Some?
    ensures r.Ok? ==> r.value == decodeResult(value).value
    ensures r.Err? && r.error.Rejected? <==> decodeResult(value).None? && DecodeRejection(value).Some?
    ensures r.Err? && r.error.Rejected? ==> r.error.rejection == DecodeRejection(value).value
    ensures r.Err? && r.error.ResultDeserializationError? <==>
      decodeResult(value).None? && DecodeRejection(value).None?
    ensures r.Err? && r.error.ResultDeserializationError? ==> r.error.deserialization == NoVariantMatched
    ensures r.Err? ==> !r.error.UnderlyingError?
  {
    match DecodeResponse(value, decodeResult)
    case Err(e) => Err(FromDeserializationError(e))
    case Ok(Normal(result)) => Ok(result)
    case Ok(Rejection(rejection)) => Err(Rejected(rejection))
  }

  /**
   * A body that would also decode as a rejection is still a success when the
   * result decoder accepts it: the success shape is tried first.
   */
  lemma SuccessShadowsRejection<R>(value: Json, decodeResult: Json -> Option<R>)
    requires decodeResult(value).Some? && DecodeRejection(value).Some?
    ensures ParseJsonValue(value, decodeResult) == Ok(decodeResult(value).value)
  {
  }

  /**
   * `Rejected` is reported only for a JSON object holding string `Code`,
   * `HostId` and `RequestId` members, or a JSON array of four or five strings.
   */
  lemma {:induction false} RejectedOnlyForRejectionShape<R>(value: Json, decodeResult: Json -> Option<R>)
    requires ParseJsonValue(value, decodeResult).Err?
    requires ParseJsonValue(value, decodeResult).error.Rejected?
    ensures RejectionShaped(value)
    ensures value.JObject? ==>
      && CodeKey in value.members && value.members[CodeKey].JString?
      && HostIdKey in value.members && value.members[HostIdKey].JString?
      && RequestIdKey in value.members && value.members[RequestIdKey].JString?
  {
    DecodeRejectionShape(value);
  }

  /**
   * Every body ends in one of the three outcomes, and which one depends only
   * on which of the two decoders accept it.
   */
  lemma OutcomeByDecoders<R>(value: Json, decodeResult: Json -> Option<R>)
    ensures var r := ParseJsonValue(value, decodeResult);
      && (r.Ok? || (r.Err? && r.error.Rejected?) || (r.Err? && r.error.ResultDeserializationError?))
      && (r.Ok? <==> decodeResult(value).Some?)
      && (r.Err? && r.error.Rejected? <==> decodeResult(value).None? && RejectionShaped(value))
  {
    DecodeRejectionShape(value);
  }
}
