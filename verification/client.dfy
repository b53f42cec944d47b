/**
 * `AliyunClient::send_request` up to the network call: the common parameters,
 * the signature, the sorted and percent-encoded query, and the final URL.
 *
 * The signing routine, the percent encoder and the HTTP exchange live outside
 * this model; they are passed in as functions. The nonce and the clock reading
 * are passed in as values.
 */
module Client {
  import opened Wrappers
  import opened Json
  import opened ClientError
  import Strings
  import Timestamp

  /** The credentials a client holds for its whole lifetime. */
  datatype AliyunClient = AliyunClient(accessKeyId: string, accessKeySecret: string)

  const SignatureMethod := "HMAC-SHA1"
  const SignatureVersion := "1.0"

  /** The keys `send_request` sets before signing. */
  const PreSigningKeys: set<string> :=
    {"AccessKeyId", "SignatureMethod", "SignatureVersion", "SignatureNonce", "Timestamp"}

  /** Every key `send_request` sets. */
  const CommonKeys: set<string> := PreSigningKeys + {"Signature"}

  /** `params.entry(key).or_insert(value)`: the value goes in only if the key is absent. */
  function OrInsert(params: map<string, string>, key: string, value: string): (r: map<string, string>)
    ensures forall k :: k in r <==> k in params || k == key
    ensures key in params ==> r[key] == params[key]
    ensures key !in params ==> r[key] == value
    ensures forall k :: k in params && k != key ==> r[k] == params[k]
  {
    if key in params then params else params[key := value]
  }

  /**
   * The map as it stands after the five common parameters are set and before
   * it is signed: three added only when absent, nonce and timestamp always
   * overwritten, every other entry untouched.
   */
  function WithCommonParams(client: AliyunClient, params: map<string, string>, nonce: string, timestamp: string): (r: map<string, string>)
    ensures forall k :: k in r <==> k in params || k in PreSigningKeys
    ensures r["AccessKeyId"] == if "AccessKeyId" in params then params["AccessKeyId"] else client.accessKeyId
    ensures r["SignatureMethod"] == if "SignatureMethod" in params then params["SignatureMethod"] else SignatureMethod
    ensures r["SignatureVersion"] == if "SignatureVersion" in params then params["SignatureVersion"] else SignatureVersion
    ensures r["SignatureNonce"] == nonce
    ensures r["Timestamp"] == timestamp
    ensures forall k :: k in params && k !in PreSigningKeys ==> r[k] == params[k]
  {
    var p := OrInsert(params, "AccessKeyId", client.accessKeyId);
    var p := OrInsert(p, "SignatureMethod", SignatureMethod);
    var p := OrInsert(p, "SignatureVersion", SignatureVersion);
    var p := p["SignatureNonce" := nonce];
    p["Timestamp" := timestamp]
  }

  /** One query entry, `encode(key) + "=" + encode(value)`, per key, in the order given. */
  function Pairs(keys: seq<string>, params: map<string, string>, encode: string -> string): (r: seq<string>)
    requires forall i :: 0 <= i < |keys| ==> keys[i] in params
    ensures |r| == |keys|
    ensures forall i :: 0 <= i < |keys| ==> r[i] == encode(keys[i]) + "=" + encode(params[keys[i]])
  {
    if |keys| == 0 then [] else [encode(keys[0]) + "=" + encode(params[keys[0]])] + Pairs(keys[1..], params, encode)
  }

  /** The query string: the map's entries in ascending key order, joined by `&`. */
  function Query(params: map<string, string>, encode: string -> string): string
  {
    var keys := Strings.SortedKeys(params.Keys);
    Strings.SortedKeysSpec(params.Keys);
    Strings.Join(Pairs(keys, params, encode), '&')
  }

  /** An encoder that never emits the query's own delimiters, as a percent encoder does not. */
  ghost predicate KeepsDelimitersOut(encode: string -> string) {
    forall s :: '&' !in encode(s) && '=' !in encode(s)
  }

  ghost predicate Injective(encode: string -> string) {
    forall a, b :: encode(a) == encode(b) ==> a == b
  }

  /**
   * The map that is sent: the common parameters, then `Signature`, computed
   * over the map as it stood after the common parameters were set, replacing
   * any `Signature` the caller supplied. Every other caller entry survives.
   */
  function SignParams(
    client: AliyunClient,
    params: map<string, string>,
    nonce: string,
    timestamp: string,
    sign: (map<string, string>, string) -> string)
    : (signed: map<string, string>)
    ensures forall k :: k in signed <==> k in params || k in CommonKeys
    ensures forall k :: k in params && k !in CommonKeys ==> signed[k] == params[k]
    ensures signed["AccessKeyId"] == if "AccessKeyId" in params then params["AccessKeyId"] else client.accessKeyId
    ensures signed["SignatureMethod"] == if "SignatureMethod" in params then params["SignatureMethod"] else SignatureMethod
    ensures signed["SignatureVersion"] == if "SignatureVersion" in params then params["SignatureVersion"] else SignatureVersion
    ensures signed["SignatureNonce"] == nonce
    ensures signed["Timestamp"] == timestamp
    ensures signed["Signature"] == sign(WithCommonParams(client, params, nonce, timestamp), client.accessKeySecret)
    ensures signed - {"Signature"} == WithCommonParams(client, params, nonce, timestamp) - {"Signature"}
  {
    var common := WithCommonParams(client, params, nonce, timestamp);
    common["Signature" := sign(common, client.accessKeySecret)]
  }

  /**
   * `send_request` up to the HTTP call: the signed map, the URL requested,
   * and what the transport answered for that URL.
   */
  method SendRequest(
    client: AliyunClient,
    endpoint: string,
    params: map<string, string>,
    nonce: string,
    now: Timestamp.DateTime,
    sign: (map<string, string>, string) -> string,
    encode: string -> string,
    transport: string -> Result<Json, TransportError>)
    returns (signed: map<string, string>, url: string, response: Result<Json, TransportError>)
    ensures signed == SignParams(client, params, nonce, Timestamp.Format(now), sign)
    ensures url == "https://" + endpoint + "?" + Query(signed, encode)
    ensures response == transport(url)
  {
    var p := params;
    p := OrInsert(p, "AccessKeyId", client.accessKeyId);
    p := OrInsert(p, "SignatureMethod", SignatureMethod);
    p := OrInsert(p, "SignatureVersion", SignatureVersion);
    p := p["SignatureNonce" := nonce];
    var timestamp := Timestamp.Format(now);
    p := p["Timestamp" := timestamp];
    assert p == WithCommonParams(client, params, nonce, timestamp);
    var signature := sign(p, client.accessKeySecret);
    p := p["Signature" := signature];
    signed := p;
    var query := Query(signed, encode);
    url := "https://" + endpoint + "?" + query;
    response := transport(url);
  }

  /**
   * Split at `&`, the query gives back one `key=value` entry per map entry,
   * in ascending key order; there is no leading, trailing or doubled `&`.
   */
  lemma {:induction false} QueryEntries(params: map<string, string>, encode: string -> string)
    requires KeepsDelimitersOut(encode)
    requires |params| > 0
    ensures var keys := Strings.SortedKeys(params.Keys);
      var parts := Strings.Split(Query(params, encode), '&');
      && |parts| == |params| == |keys|
      && (forall i :: 0 <= i < |keys| ==> keys[i] in params)
      && forall i :: 0 <= i < |parts| ==> parts[i] == encode(keys[i]) + "=" + encode(params[keys[i]])
  {
    var keys := Strings.SortedKeys(params.Keys);
    Strings.SortedKeysSpec(params.Keys);
    var pairs := Pairs(keys, params, encode);
    PairsFree(keys, params, encode);
    Strings.SplitJoin(pairs, '&');
  }

  lemma PairsFree(keys: seq<string>, params: map<string, string>, encode: string -> string)
    requires KeepsDelimitersOut(encode)
    requires forall i :: 0 <= i < |keys| ==> keys[i] in params
    ensures forall i :: 0 <= i < |keys| ==> '&' !in Pairs(keys, params, encode)[i]
  {
    var pairs := Pairs(keys, params, encode);
    forall i | 0 <= i < |keys| ensures '&' !in pairs[i] {
      var k := keys[i];
      assert pairs[i] == encode(k) + "=" + encode(params[k]);
      assert '&' !in encode(k) && '&' !in encode(params[k]);
    }
  }

  /** n entries are separated by exactly n - 1 `&`; no entries give the empty query. */
  lemma {:induction false} QuerySeparators(params: map<string, string>, encode: string -> string)
    requires KeepsDelimitersOut(encode)
    ensures |params| == 0 ==> Query(params, encode) == ""
    ensures |params| > 0 ==> Strings.Count(Query(params, encode), '&') == |params| - 1
  {
    var keys := Strings.SortedKeys(params.Keys);
    Strings.SortedKeysSpec(params.Keys);
    if |params| > 0 {
      PairsFree(keys, params, encode);
      Strings.JoinCount(Pairs(keys, params, encode), '&');
    }
  }

  /**
   * With an injective encoder that keeps `&` and `=` out of its output, two
   * maps give the same query only if they are the same map: changing any
   * key or value changes the string that is signed and sent.
   */
  lemma {:induction false} QueryInjective(m1: map<string, string>, m2: map<string, string>, encode: string -> string)
    requires KeepsDelimitersOut(encode) && Injective(encode)
    requires Query(m1, encode) == Query(m2, encode)
    ensures m1 == m2
  {
    var keys1, keys2 := Strings.SortedKeys(m1.Keys), Strings.SortedKeys(m2.Keys);
    Strings.SortedKeysSpec(m1.Keys);
    Strings.SortedKeysSpec(m2.Keys);
    if |m1| == 0 || |m2| == 0 {
      NonEmptyQuery(m1, encode);
      NonEmptyQuery(m2, encode);
      assert |m1| == 0 && |m2| == 0;
      assert m1 == map[] && m2 == map[];
    } else {
      QueryEntries(m1, encode);
      QueryEntries(m2, encode);
      forall i | 0 <= i < |keys1|
        ensures keys1[i] == keys2[i] && m1[keys1[i]] == m2[keys2[i]]
      {
        Strings.CutUnique(encode(keys1[i]), encode(m1[keys1[i]]), encode(keys2[i]), encode(m2[keys2[i]]), '=');
      }
      assert keys1 == keys2;
      assert m1.Keys == m2.Keys by {
        forall k ensures k in m1.Keys <==> k in m2.Keys {
          assert k in keys1 <==> k in keys2;
        }
      }
      forall k | k in m1 ensures m1[k] == m2[k] {
        assert k in keys1;
        var i :| 0 <= i < |keys1| && keys1[i] == k;
      }
    }
  }

  lemma NonEmptyQuery(params: map<string, string>, encode: string -> string)
    ensures |params| > 0 ==> |Query(params, encode)| > 0
  {
    if |params| > 0 {
      var keys := Strings.SortedKeys(params.Keys);
      Strings.SortedKeysSpec(params.Keys);
      var pairs := Pairs(keys, params, encode);
      assert |pairs[0]| > 0;
      if |pairs| > 1 {
        assert Query(params, encode) == pairs[0] + ['&'] + Strings.Join(pairs[1..], '&');
      }
    }
  }

  /**
   * The signed request's URL carries every signed entry, so with a
   * delimiter-free encoder two different signed maps never share a URL.
   */
  lemma UrlDeterminesParams(endpoint: string, m1: map<string, string>, m2: map<string, string>, encode: string -> string)
    requires KeepsDelimitersOut(encode) && Injective(encode)
    requires "https://" + endpoint + "?" + Query(m1, encode) == "https://" + endpoint + "?" + Query(m2, encode)
    ensures m1 == m2
  {
    var prefix := "https://" + endpoint + "?";
    assert Query(m1, encode) == (prefix + Query(m1, encode))[|prefix|..];
    assert Query(m2, encode) == (prefix + Query(m2, encode))[|prefix|..];
    QueryInjective(m1, m2, encode);
  }
}
