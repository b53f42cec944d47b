/**
 * The rejection payload the provider returns instead of a result, its derived
 * serde decoding and encoding, and the client's error type.
 */
module ClientError {
  import opened Wrappers
  import opened Json

  /** What `default_aliyun_rejection_field` returns for an absent field. */
  const DefaultRejectionField: string :=
    "No content. If you see this please submit a bug issue (to the rust sdk repo)."

  /** Serialized field names: the struct's fields renamed to PascalCase. */
  const CodeKey := "Code"
  const HostIdKey := "HostId"
  const MessageKey := "Message"
  const RequestIdKey := "RequestId"
  const RecommendKey := "Recommend"

  datatype AliyunRejection = AliyunRejection(
    code: string,
    hostId: string,
    message: string,
    requestId: string,
    recommend: string)

  /** The opaque failure of the HTTP client (`reqwest::Error`). */
  datatype TransportError = TransportError(description: string)

  /** The opaque failure of a JSON decode (`serde_json::Error`). */
  datatype DeserializationError = DeserializationError(description: string)

  /**
   * The client's error type. The rejection variant is `Rejected`; the other
   * two are the conversions from the transport's and the JSON decoder's errors.
   */
  datatype OperationError =
    | Rejected(rejection: AliyunRejection)
    | UnderlyingError(transport: TransportError)
    | ResultDeserializationError(deserialization: DeserializationError)

  /** `From<reqwest::Error>`: a transport failure becomes `UnderlyingError`. */
  function FromTransportError(e: TransportError): (r: OperationError)
    ensures r.UnderlyingError? && r.transport == e
  {
    UnderlyingError(e)
  }

  /** `From<serde_json::Error>`: a decode failure becomes `ResultDeserializationError`. */
  function FromDeserializationError(e: DeserializationError): (r: OperationError)
    ensures r.ResultDeserializationError? && r.deserialization == e
  {
    ResultDeserializationError(e)
  }

  /** The two conversions never meet, and neither yields a rejection. */
  lemma ConversionsAreDistinct(t: TransportError, d: DeserializationError)
    ensures FromTransportError(t) != FromDeserializationError(d)
    ensures !FromTransportError(t).Rejected? && !FromDeserializationError(d).Rejected?
  {
  }

  /** A member that must be present and hold a JSON string. */
  function RequiredString(members: map<string, Json>, key: string): (r: Option<string>)
    ensures r.Some? <==> key in members && members[key].JString?
    ensures r.Some? ==> members[key] == JString(r.value)
  {
    if key in members && members[key].JString? then Some(members[key].s) else None
  }

  /** A member with `#[serde(default = ...)]`: the default when absent, else a JSON string. */
  function DefaultedString(members: map<string, Json>, key: string): (r: Option<string>)
    ensures key !in members ==> r == Some(DefaultRejectionField)
    ensures key in members ==> (r.Some? <==> members[key].JString?)
    ensures key in members && r.Some? ==> members[key] == JString(r.value)
  {
    if key !in members then Some(DefaultRejectionField)
    else if members[key].JString? then Some(members[key].s)
    else None
  }

  /**
   * The members hold the rejection's fields: the three required ones as JSON
   * strings, and `Message`/`Recommend` as JSON strings when present and the
   * sentinel when absent.
   */
  ghost predicate Carries(members: map<string, Json>, r: AliyunRejection) {
    && CodeKey in members && members[CodeKey] == JString(r.code)
    && HostIdKey in members && members[HostIdKey] == JString(r.hostId)
    && RequestIdKey in members && members[RequestIdKey] == JString(r.requestId)
    && (MessageKey in members ==> members[MessageKey] == JString(r.message))
    && (MessageKey !in members ==> r.message == DefaultRejectionField)
    && (RecommendKey in members ==> members[RecommendKey] == JString(r.recommend))
    && (RecommendKey !in members ==> r.recommend == DefaultRejectionField)
  }

  /** The rejection a sequence of four or five JSON strings stands for, field by field. */
  ghost function Positional(items: seq<Json>): AliyunRejection
    requires 4 <= |items| <= 5 && forall i :: 0 <= i < |items| ==> items[i].JString?
  {
    AliyunRejection(items[0].s, items[1].s, items[2].s, items[3].s,
      if |items| == 5 then items[4].s else DefaultRejectionField)
  }

  /** The derived `Deserialize` from a JSON object: unknown members are ignored. */
  function DecodeRejectionObject(members: map<string, Json>): (r: Option<AliyunRejection>)
    ensures r.Some? ==> Carries(members, r.value)
    ensures r.Some? <==>
      && RequiredString(members, CodeKey).Some?
      && RequiredString(members, HostIdKey).Some?
      && DefaultedString(members, MessageKey).Some?
      && RequiredString(members, RequestIdKey).Some?
      && DefaultedString(members, RecommendKey).Some?
  {
    var code := RequiredString(members, CodeKey);
    var hostId := RequiredString(members, HostIdKey);
    var message := DefaultedString(members, MessageKey);
    var requestId := RequiredString(members, RequestIdKey);
    var recommend := DefaultedString(members, RecommendKey);
    if code.Some? && hostId.Some? && message.Some? && requestId.Some? && recommend.Some? then
      Some(AliyunRejection(code.value, hostId.value, message.value, requestId.value, recommend.value))
    else None
  }

  /**
   * The derived `Deserialize` from a JSON array: the fields in declaration
   * order; a sequence that ends before `recommend` takes its default, one
   * that ends earlier fails, and one with a sixth element fails.
   */
  function DecodeRejectionArray(items: seq<Json>): (r: Option<AliyunRejection>)
    ensures r.Some? <==> (4 <= |items| <= 5 && forall i :: 0 <= i < |items| ==> items[i].JString?)
    ensures r.Some? ==> r.value == Positional(items)
  {
    if 4 <= |items| <= 5 && forall i :: 0 <= i < |items| ==> items[i].JString? then
      var recommend := if |items| == 5 then items[4].s else DefaultRejectionField;
      Some(AliyunRejection(items[0].s, items[1].s, items[2].s, items[3].s, recommend))
    else None
  }

  /** Decoding a JSON value as `AliyunRejection`; any other JSON kind fails. */
  function DecodeRejection(v: Json): (r: Option<AliyunRejection>)
    ensures r.Some? ==> v.JObject? || v.JArray?
    ensures v.JObject? && r.Some? ==> Carries(v.members, r.value)
    ensures v.JArray? && r.Some? ==> 4 <= |v.items| <= 5 && forall i :: 0 <= i < |v.items| ==> v.items[i].JString?
    ensures v.JArray? && r.Some? ==> r.value == Positional(v.items)
  {
    match v
    case JObject(members) => DecodeRejectionObject(members)
    case JArray(items) => DecodeRejectionArray(items)
    case _ => None
  }

  /** The derived `Serialize`: all five fields under their PascalCase names. */
  function EncodeRejection(r: AliyunRejection): (v: Json)
    ensures v.JObject?
    ensures v.members.Keys == {CodeKey, HostIdKey, MessageKey, RequestIdKey, RecommendKey}
    ensures v.members[CodeKey] == JString(r.code)
    ensures v.members[HostIdKey] == JString(r.hostId)
    ensures v.members[MessageKey] == JString(r.message)
    ensures v.members[RequestIdKey] == JString(r.requestId)
    ensures v.members[RecommendKey] == JString(r.recommend)
  {
    JObject(map[
      CodeKey := JString(r.code),
      HostIdKey := JString(r.hostId),
      MessageKey := JString(r.message),
      RequestIdKey := JString(r.requestId),
      RecommendKey := JString(r.recommend)])
  }

  /** What serialization writes, deserialization reads back unchanged. */
  lemma EncodeDecodeRoundTrip(r: AliyunRejection)
    ensures DecodeRejection(EncodeRejection(r)) == Some(r)
  {
  }

  /** Any of the three required members missing, or not a string: no rejection. */
  lemma {:induction false} MissingRequiredFieldFails(members: map<string, Json>, key: string)
    requires key in {CodeKey, HostIdKey, RequestIdKey}
    requires key !in members || !members[key].JString?
    ensures DecodeRejection(JObject(members)).None?
  {
  }

  /** The sentinel is substituted only for an absent `Message` or `Recommend`. */
  lemma {:induction false} DefaultOnlyWhenAbsent(members: map<string, Json>, key: string)
    requires key in {MessageKey, RecommendKey}
    requires DecodeRejection(JObject(members)).Some?
    ensures var r := DecodeRejection(JObject(members)).value;
      var field := if key == MessageKey then r.message else r.recommend;
      && (key !in members ==> field == DefaultRejectionField)
      && (key in members ==> members[key] == JString(field))
  {
  }

  /** Present `Message` and `Recommend` strings are carried verbatim. */
  lemma {:induction false} PresentFieldsVerbatim(members: map<string, Json>, message: string, recommend: string)
    requires DecodeRejection(JObject(members)).Some?
    ensures DecodeRejection(JObject(members[MessageKey := JString(message)][RecommendKey := JString(recommend)]))
      == Some(DecodeRejection(JObject(members)).value.(message := message, recommend := recommend))
  {
  }

  /** The JSON values that decode as a rejection, described without the decoder. */
  ghost predicate RejectionShaped(v: Json) {
    || (&& v.JObject?
        && (forall k :: k in {CodeKey, HostIdKey, RequestIdKey} ==> k in v.members && v.members[k].JString?)
        && (forall k :: k in {MessageKey, RecommendKey} && k in v.members ==> v.members[k].JString?))
    || (&& v.JArray?
        && 4 <= |v.items| <= 5
        && forall i :: 0 <= i < |v.items| ==> v.items[i].JString?)
  }

  /** Which JSON values decode as a rejection, in both directions. */
  lemma DecodeRejectionShape(v: Json)
    ensures DecodeRejection(v).Some? <==> RejectionShaped(v)
  {
  }
}
