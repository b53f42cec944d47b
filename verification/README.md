# Aliyun SDK client core in Dafny

This project models the core of a small Rust SDK for Alibaba Cloud (Aliyun) in
Dafny. It covers three pieces.

- **Signed-request assembly** (`AliyunClient::send_request`, module `Client`).
  - The client adds its common parameters to the caller's map. `AccessKeyId`,
    `SignatureMethod` and `SignatureVersion` are added only when absent.
    `SignatureNonce` and `Timestamp` are always overwritten.
  - It signs the augmented map and stores the result under `Signature`.
  - It renders the map in ascending key order as a percent-encoded
    `k=v&k=v` query and requests `https://endpoint?query`.
  - The timestamp is chrono's `%Y-%m-%dT%H:%M:%SZ` rendering of a UTC calendar
    time (module `Timestamp`, with digit rendering in `Decimal`).
  - `BTreeMap` iteration order is lexicographic order on the key strings
    (module `Strings`).
- **Response classification** (`parse_json_value`, modules `ClientUtils` and
  `ClientError`).
  - A JSON body is first decoded as the operation's result type, then as an
    `AliyunRejection`.
  - The outcome is `Ok(result)`, `Err(Rejected(rejection))`, or a
    deserialization error.
  - The rejection decoder is written out as serde's derived `Deserialize`
    behaves, in both forms it accepts. A JSON object ignores unknown members,
    needs string `Code`, `HostId` and `RequestId`, and uses a fixed sentinel for
    an absent `Message` or `Recommend`. A JSON array needs four or five strings,
    taken in field order.
- **ECS parameter builders** (`src/services/ecs.rs`, module `Ecs`). Each of
  the thirteen operations becomes a function that returns the endpoint and the
  parameter map it hands to `send_request`. The same module holds the rendering
  of the `InstanceIds` list.

Some things the client calls are passed in as function-typed parameters:
- the signing routine (`crate::signing::calculate_signature`);
- the percent encoder (`crate::utils::aliyun_percent_encode`);
- the HTTP exchange;
- the decoder for an operation's result type.

The nonce and the clock reading are passed in as values.

Where the repository's parts disagree, the model follows the code.
- `src/client/error.rs` names its error enum `AdvancedClientError`, with the
  rejection variant `AliyunRejectError`.
- `src/client/utils.rs`, which uses that enum, refers to it as
  `OperationError::Rejected`.
- The model has one error type, `OperationError`, with the three variants of
  `error.rs`. Its rejection variant is named `Rejected`, as in `utils.rs`.

serde's derived decoder, which `src/client/error.rs` relies on, ignores unknown
members and also accepts the array form, and the model does the same.

## Model

| member | source | states |
|---|---|---|
| Client.OrInsert | src/client/mod.rs:47-55 | `entry(key).or_insert(value)`: the key is present afterwards; a value already there survives; the given value appears only if the key was absent; every other entry is unchanged |
| Client.WithCommonParams | src/client/mod.rs:47-58 | the keys are the caller's plus the five common ones; `AccessKeyId`, `SignatureMethod`, `SignatureVersion` keep a caller value and otherwise become the client's key id, `HMAC-SHA1` and `1.0`; `SignatureNonce` and `Timestamp` are the supplied nonce and time whatever the caller sent; every other caller entry is unchanged |
| Client.SignParams | src/client/mod.rs:47-62 | the keys are the caller's plus exactly the six common ones; `Signature` is the signing function applied to the map as it stood after the five common keys were set, with the secret, replacing any caller value; apart from `Signature` the map equals that pre-signing map; the defaults, overwrites and untouched entries as above |
| Client.Pairs | src/client/mod.rs:65-74 | one entry per key, in the order given, each `encode(key) + "=" + encode(value)` |
| Client.SendRequest | src/client/mod.rs:41-80 | the map it sends is the signed map for the supplied nonce and the formatted clock reading; the URL is exactly `"https://" + endpoint + "?" + query` of that map; the response is what the transport returns for that URL |
| Client.QueryEntries | src/client/mod.rs:65-75 | split at `&`, the query gives exactly one `encode(k)=encode(v)` entry per map entry, in ascending key order, so there is no empty, leading or trailing entry |
| Client.QuerySeparators | src/client/mod.rs:65-75 | n entries are joined by exactly n − 1 `&`; an empty map gives the empty query |
| Client.NonEmptyQuery | src/client/mod.rs:65-75 | a non-empty map gives a non-empty query |
| Client.QueryInjective | src/client/mod.rs:65-75 | with an injective encoder that never emits `&` or `=`, equal queries come only from equal maps, so every key and value reaches the request |
| Client.UrlDeterminesParams | src/client/mod.rs:76 | for one endpoint, equal URLs come only from equal signed maps, under the same encoder assumptions |
| Timestamp.FormatYear | src/client/mod.rs:57 | chrono `%Y`: four digits denoting the year for years 0 to 9999; otherwise a sign and at least four digits denoting its magnitude |
| Timestamp.FormatField | src/client/mod.rs:57 | `%m %d %H %M %S`: two digits denoting the field for values below 100 |
| Timestamp.FormatLayout | src/client/mod.rs:57 | for a valid time in years 0 to 9999, each field sits at its fixed position with `-`, `-`, `T`, `:`, `:`, `Z` between and after them |
| Timestamp.FormatShape | src/client/mod.rs:57 | the timestamp is 20 characters, digits everywhere except `-` at 4 and 7, `T` at 10, `:` at 13 and 16, `Z` at 19 |
| Timestamp.ParseFormatRoundTrip | src/client/mod.rs:57 | reading the timestamp back gives the calendar time it was written from |
| Decimal.DecimalString | src/services/ecs.rs:451-456 | `u32::to_string`: non-empty digits with no leading zero except for 0 itself, one digit exactly below 10 |
| Decimal.DecimalRoundTrip | src/services/ecs.rs:451-456 | the digits denote the number rendered |
| Decimal.DecimalInjective | src/services/ecs.rs:451-456 | different numbers render differently |
| Decimal.PadZerosRoundTrip | src/client/mod.rs:57 | zero-padding a number never changes the value its digits denote |
| Decimal.PadZerosWidth | src/client/mod.rs:57 | a number below 10^w padded to width w fills exactly w characters |
| Strings.SortedKeysSpec | src/client/mod.rs:65-66 | the `BTreeMap` iteration order: every key exactly once, strictly ascending |
| Strings.SplitJoin | src/client/mod.rs:75 | splitting a `&`-join of `&`-free parts gives the parts back |
| Strings.JoinSplit | src/client/mod.rs:75 | joining the pieces of a split gives the string back |
| Strings.JoinCount | src/client/mod.rs:75 | joining n separator-free parts puts exactly n − 1 separators in the result |
| Strings.CutUnique | src/client/mod.rs:68-72 | a `key=value` entry whose key part has no `=` determines both the key part and the value part |
| ClientError.FromTransportError | src/client/error.rs:31 | a transport error converts into `UnderlyingError` carrying it |
| ClientError.FromDeserializationError | src/client/error.rs:33 | a JSON decode error converts into `ResultDeserializationError` carrying it |
| ClientError.ConversionsAreDistinct | src/client/error.rs:25-34 | the two conversions never produce the same error, and neither produces the rejection variant |
| ClientError.RequiredString | src/client/error.rs:16-20 | a required field decodes exactly when its member is present and a JSON string, and yields that string |
| ClientError.DefaultedString | src/client/error.rs:18-22 | a defaulted field is the sentinel when absent, and otherwise decodes exactly when it is a JSON string, yielding that string |
| ClientError.DecodeRejectionObject | src/client/error.rs:13-23 | an object decodes exactly when all five field decoders succeed, and the result carries every present member and the sentinel for an absent `Message` or `Recommend` |
| ClientError.DecodeRejectionArray | src/client/error.rs:13-23 | an array decodes exactly when it holds four or five strings; they fill the fields in declaration order, with `Recommend` defaulted when there are four |
| ClientError.DecodeRejection | src/client/error.rs:13-23 | only objects and arrays decode; an object result carries its members, an array result is the positional reading |
| ClientError.EncodeRejection | src/client/error.rs:13-14 | serialization writes an object with exactly the five PascalCase names, each holding the matching field of the rejection as a JSON string |
| ClientError.EncodeDecodeRoundTrip | src/client/error.rs:13-23 | decoding the serialized rejection gives the same rejection |
| ClientError.MissingRequiredFieldFails | src/client/error.rs:16-20 | an object missing `Code`, `HostId` or `RequestId`, or holding a non-string there, does not decode |
| ClientError.DefaultOnlyWhenAbsent | src/client/error.rs:18-22 | in a decoded object the `Message` or `Recommend` field is the sentinel when the member is absent, and the member's string when present |
| ClientError.PresentFieldsVerbatim | src/client/error.rs:18-22 | setting `Message` and `Recommend` members to strings changes exactly those two fields of the decoded rejection, to those strings |
| ClientError.DecodeRejectionShape | src/client/error.rs:13-23 | a value decodes as a rejection if and only if it is an object with string `Code`, `HostId`, `RequestId` and no non-string `Message`/`Recommend`, or an array of four or five strings |
| ClientUtils.DecodeResponse | src/client/utils.rs:7-12 | untagged decoding tries `Normal` first, then `Rejected`, and fails with serde's no-variant message when neither matches |
| ClientUtils.ParseJsonValue | src/client/utils.rs:14-21 | `Ok` exactly when the result decoder accepts, with its value; `Rejected` exactly when it refuses and the rejection decoder accepts, with the decoded rejection; `ResultDeserializationError` exactly when both refuse; never `UnderlyingError` |
| ClientUtils.SuccessShadowsRejection | src/client/utils.rs:17-18 | a body both decoders accept is a success |
| ClientUtils.RejectedOnlyForRejectionShape | src/client/utils.rs:19 | `Rejected` is returned only for a rejection-shaped body; for an object, one with string `Code`, `HostId` and `RequestId` |
| ClientUtils.OutcomeByDecoders | src/client/utils.rs:14-21 | every body gets one of the three outcomes; `Ok` exactly when the result decoder accepts; `Rejected` exactly when it refuses and the body is rejection-shaped |
| Ecs.FixedParams | src/services/ecs.rs:29-32 | the start map holds exactly `Action`, `Format=JSON`, `Version=2014-05-26` |
| Ecs.InsertIfSome | src/services/ecs.rs:33-35 | an optional argument adds its key exactly when given, with its value, and changes nothing else |
| Ecs.BoolString | src/services/ecs.rs:332 | `bool::to_string`: `"true"` exactly for true, otherwise `"false"` |
| Ecs.BoolArg | src/services/ecs.rs:331-336 | an optional flag is rendered exactly when given |
| Ecs.U32Arg | src/services/ecs.rs:451-456 | an optional page number or size is rendered as unpadded decimal exactly when given |
| Ecs.QuoteAll | src/services/ecs.rs:283 | each ID wrapped in double quotes, in order |
| Ecs.ParseQuotedListJoin | src/services/ecs.rs:279-287 | a comma-joined list of quoted, quote-free IDs reads back as the list |
| Ecs.InstanceIdsRoundTrip | src/services/ecs.rs:279-287 | for quote-free IDs the `InstanceIds` value determines the list, so different lists send different values |
| Ecs.InstanceIdsEmpty | src/services/ecs.rs:279-287 | an empty list gives `[]` |
| Ecs.InstanceIdsNotEscaped | src/services/ecs.rs:279-287 | IDs are not escaped: `["a\",\"b"]` and `["a", "b"]` give the same value |
| Ecs.DescribeRegions | src/services/ecs.rs:25-37 | ECS endpoint, action, format and version; keys among the fixed ones and `RegionId`; `RegionId` present exactly when given, with its value |
| Ecs.DescribeZones | src/services/ecs.rs:59-69 | fixed entries plus exactly `RegionId`, stored verbatim |
| Ecs.DescribeAvailableResource | src/services/ecs.rs:92-107 | fixed entries plus exactly `RegionId` and `ZoneId`, stored verbatim |
| Ecs.DescribeAccountAttributes | src/services/ecs.rs:128-137 | exactly the fixed entries |
| Ecs.DescribeResourcesModification | src/services/ecs.rs:160-175 | fixed entries plus exactly `RegionId` and `ZoneId`, stored verbatim |
| Ecs.DescribeRecommendInstanceType | src/services/ecs.rs:197-210 | fixed entries plus exactly `RegionId`, stored verbatim |
| Ecs.RunInstances | src/services/ecs.rs:235-250 | fixed entries plus exactly `RegionId`, `ImageId` and `InstanceType`, stored verbatim |
| Ecs.StartInstances | src/services/ecs.rs:271-289 | fixed entries plus exactly `InstanceIds`, holding the rendered ID list |
| Ecs.StopInstances | src/services/ecs.rs:312-338 | fixed entries, `InstanceIds` with the rendered list, `ForceStop` and `DryRun` exactly when given as `true`/`false`, and no other key |
| Ecs.RebootInstance | src/services/ecs.rs:362-380 | fixed entries, `InstanceId` verbatim, `ForceStop` and `DryRun` exactly when given as `true`/`false`, and no other key |
| Ecs.DeleteInstance | src/services/ecs.rs:401-411 | fixed entries plus exactly `InstanceId`, stored verbatim |
| Ecs.DescribeInstanceStatus | src/services/ecs.rs:436-458 | fixed entries, `RegionId` verbatim, `InstanceId`, `PageNumber`, `PageSize` exactly when given (numbers as decimal), and no other key |
| Ecs.DescribeInstances | src/services/ecs.rs:484-506 | fixed entries, `RegionId` verbatim, `Filters`, `PageNumber`, `PageSize` exactly when given (numbers as decimal), and no other key |
| Ecs.StartStopSameInstanceIds | src/services/ecs.rs:279-330 | starting and stopping the same list send the same `InstanceIds` value |
| Ecs.DescribeInstancesMinimal | src/services/ecs.rs:491-505 | with every option absent the map is exactly `Action`, `Format`, `Version`, `RegionId` |
| Ecs.DescribeInstanceStatusInjective | src/services/ecs.rs:443-457 | equal maps come only from equal arguments, page numbers included |
| Ecs.StopInstancesInjective | src/services/ecs.rs:318-337 | for quote-free IDs, equal maps come only from equal ID lists and flags |

## Left out

- The HTTP GET and the decoding of the response body into a JSON value
  (`src/client/mod.rs:79-82`) are network I/O through an async client. The model
  has a `transport` function from URL to JSON value or transport error.
- The nonce (`Uuid::new_v4`) and the clock (`Utc::now`) are nondeterministic.
  They are inputs to `Client.SendRequest`.
- `crate::signing::calculate_signature` and `crate::utils::aliyun_percent_encode`
  are not part of this model. They are function parameters, and the query
  properties assume only what a percent encoder guarantees: no `&` or `=` in its
  output, and injectivity.
- The generic serde decoding of an operation's result type is an abstract
  partial decoder (`Json -> Option<R>`).
- JSON numbers are integers. Floating-point numbers are not modelled, because
  the rejection decoder only looks for strings.
- `src/client/sts/mod.rs` only chains the send with `parse_json_value`. It is
  not part of this model.
- `src/services/sts.rs` and `src/services/billing.rs` are constant maps handed
  to the network call. They are not part of this model.
- The `thiserror` display messages and the `DisplayFromStr` serialization of the
  error enum format library errors, so they are not modelled.
- The `#[tokio::test]` cases call live endpoints, so they are not modelled.
- Timestamp.FormatShape: stated for years 0 through 9999 only. Outside that
  range chrono writes a sign and more digits, so the string is not 20
  characters; `Timestamp.FormatYear` states that case.
- Ecs.InstanceIdsRoundTrip: holds only for IDs without a double quote, because
  IDs are not escaped (`Ecs.InstanceIdsNotEscaped` shows two lists that
  collide).
- Client.QueryInjective: assumes an injective encoder that never emits `&` or
  `=`. The real percent encoder is not part of this model.
