/**
 * The request-building helpers of `beeper_chain/util.py`: the query string of a GET
 * request, the message that is signed for the exchange API, its header record, and the
 * request body sent to the custodial signer in place of a local signature.
 */
module Util {
  import opened Wrappers

  // ---------------------------------------------------------------------------
  // parse_params_to_str

  /** One emitted query parameter. */
  function Pair(key: string, value: string): string
  {
    key + "=" + value
  }

  /** The entries that are emitted: those whose value is not the empty string, in order. */
  function Kept(params: seq<(string, string)>): (r: seq<(string, string)>)
    ensures |r| <= |params|
    ensures forall i :: 0 <= i < |r| ==> r[i].1 != "" && r[i] in params
    ensures forall i :: 0 <= i < |params| && params[i].1 != "" ==> params[i] in r
    ensures (forall i :: 0 <= i < |params| ==> params[i].1 == "") <==> r == []
  {
    if params == [] then []
    else
      var init, last := params[..|params| - 1], params[|params| - 1];
      assert forall e :: e in init ==> e in params;
      assert forall i :: 0 <= i < |init| ==> init[i] == params[i];
      if last.1 != "" then Kept(init) + [last] else Kept(init)
  }

  /** A single entry is kept exactly when its value is not empty. */
  lemma KeptOne(e: (string, string))
    ensures Kept([e]) == if e.1 != "" then [e] else []
  {
    assert [e][..0] == [];
  }

  /** Keeping entries is a filter that keeps their order: it distributes over concatenation. */
  lemma {:induction false} KeptConcat(a: seq<(string, string)>, b: seq<(string, string)>)
    decreases |b|
    ensures Kept(a + b) == Kept(a) + Kept(b)
  {
    if b == [] {
      assert a + b == a;
    } else {
      var init, last := b[..|b| - 1], b[|b| - 1];
      var tail := if last.1 != "" then [last] else [];
      KeptConcat(a, init);
      assert (a + b)[..|a + b| - 1] == a + init;
      assert (a + b)[|a + b| - 1] == last;
      assert Kept(a + b) == Kept(a + init) + tail;
      assert Kept(b) == Kept(init) + tail;
    }
  }

  /** Entries written as `key=value` and separated by "&" (the reference form of a query). */
  function Join(pairs: seq<(string, string)>): string
  {
    if pairs == [] then ""
    else if |pairs| == 1 then Pair(pairs[0].0, pairs[0].1)
    else Join(pairs[..|pairs| - 1]) + "&" + Pair(pairs[|pairs| - 1].0, pairs[|pairs| - 1].1)
  }

  /** The query string: "?" and the joined pairs, or nothing at all when no pair is emitted. */
  function QueryString(params: seq<(string, string)>): string
  {
    var kept := Kept(params);
    if kept == [] then "" else "?" + Join(kept)
  }

  /** What the loop has appended after "?" once it has seen the given entries. */
  function Emitted(params: seq<(string, string)>): string
  {
    if params == [] then ""
    else
      var last := params[|params| - 1];
      Emitted(params[..|params| - 1]) + (if last.1 != "" then Pair(last.0, last.1) + "&" else "")
  }

  lemma {:induction false} EmittedIsJoinPlusSeparator(params: seq<(string, string)>)
    ensures Emitted(params) == if Kept(params) == [] then "" else Join(Kept(params)) + "&"
  {
    if params != [] {
      var init, last := params[..|params| - 1], params[|params| - 1];
      EmittedIsJoinPlusSeparator(init);
      if last.1 != "" {
        var k := Kept(init) + [last];
        assert Kept(params) == k;
        if Kept(init) != [] {
          assert k[..|k| - 1] == Kept(init);
        }
      }
    }
  }

  /**
   * `parse_params_to_str(params)`: the dictionary's items in iteration order (keys and values
   * already rendered by `str`).
   */
  method ParseParamsToStr(params: seq<(string, string)>) returns (url: string)
    ensures url == QueryString(params)
  {
    url := "?";
    for i := 0 to |params|
      invariant url == "?" + Emitted(params[..i])
    {
      assert params[..i + 1][..i] == params[..i];
      var (key, value) := params[i];
      if value != "" {
        url := url + key + "=" + value + "&";
      }
    }
    assert params[..|params|] == params;
    EmittedIsJoinPlusSeparator(params);
    url := url[..|url| - 1];
  }

  lemma {:induction false} JoinEndsWithLastValue(pairs: seq<(string, string)>)
    requires pairs != [] && pairs[|pairs| - 1].1 != ""
    ensures |Join(pairs)| > 0
    ensures Join(pairs)[|Join(pairs)| - 1] == pairs[|pairs| - 1].1[|pairs[|pairs| - 1].1| - 1]
  {
  }

  /**
   * The query string is empty exactly when no value is non-empty; otherwise it starts with
   * "?" and ends with the last character of the last value emitted, so it does not end with
   * the "&" separator unless that value itself does.
   */
  lemma QueryStringShape(params: seq<(string, string)>)
    ensures QueryString(params) == "" <==> forall i :: 0 <= i < |params| ==> params[i].1 == ""
    ensures QueryString(params) != "" ==>
      var q, kept := QueryString(params), Kept(params);
      var v := kept[|kept| - 1].1;
      q[0] == '?' && q[|q| - 1] == v[|v| - 1]
  {
    var kept := Kept(params);
    if kept != [] {
      JoinEndsWithLastValue(kept);
    }
  }

  // ---------------------------------------------------------------------------
  // pre_hash and signature

  /** `str.upper` on the ASCII letters. */
  function UpperChar(c: char): char
  {
    if 'a' <= c <= 'z' then (c as int - 'a' as int + 'A' as int) as char else c
  }

  function Upper(s: string): (r: string)
    ensures |r| == |s| && forall i :: 0 <= i < |s| ==> r[i] == UpperChar(s[i])
  {
    seq(|s|, i requires 0 <= i < |s| => UpperChar(s[i]))
  }

  lemma UpperIdempotent(s: string)
    ensures Upper(Upper(s)) == Upper(s)
  {
    assert forall i :: 0 <= i < |s| ==> Upper(Upper(s))[i] == Upper(s)[i];
  }

  /** `pre_hash(timestamp, method, request_path, body)`: the message to be signed. */
  function PreHash(timestamp: string, httpMethod: string, requestPath: string, body: string): string
  {
    timestamp + Upper(httpMethod) + requestPath + body
  }

  /**
   * The message splits back into its parts: the timestamp first, the method in upper case
   * next, then the path, then the body; so the case in which the method is given does not
   * change the message.
   */
  lemma PreHashParts(timestamp: string, httpMethod: string, requestPath: string, body: string)
    ensures var m := PreHash(timestamp, httpMethod, requestPath, body);
      && |m| == |timestamp| + |httpMethod| + |requestPath| + |body|
      && m[..|timestamp|] == timestamp
      && m[|timestamp| .. |timestamp| + |httpMethod|] == Upper(httpMethod)
      && m[|timestamp| + |httpMethod| .. |m| - |body|] == requestPath
      && m[|m| - |body| ..] == body
    ensures PreHash(timestamp, Upper(httpMethod), requestPath, body) == PreHash(timestamp, httpMethod, requestPath, body)
  {
    UpperIdempotent(httpMethod);
  }

  /** Two spellings of a method that differ only in case give the same message. */
  lemma PreHashMethodCase(timestamp: string, m1: string, m2: string, requestPath: string, body: string)
    requires Upper(m1) == Upper(m2)
    ensures PreHash(timestamp, m1, requestPath, body) == PreHash(timestamp, m2, requestPath, body)
  {
  }

  /** The body as `signature` signs it: "{}" and "None" (an empty or absent body) become "". */
  function NormalizeBody(body: string): string
  {
    if body == "{}" || body == "None" then "" else body
  }

  /** The message `signature(timestamp, method, request_path, body, secret_key)` authenticates. */
  function SignatureMessage(timestamp: string, httpMethod: string, requestPath: string, body: string): string
  {
    timestamp + Upper(httpMethod) + requestPath + NormalizeBody(body)
  }

  /**
   * `signature` signs what `pre_hash` builds from the normalised body: the same message for
   * every other body, and the body-less message for "{}", "None" and "".
   */
  lemma SignatureMatchesPreHash(timestamp: string, httpMethod: string, requestPath: string, body: string)
    ensures SignatureMessage(timestamp, httpMethod, requestPath, body) == PreHash(timestamp, httpMethod, requestPath, NormalizeBody(body))
    ensures body != "{}" && body != "None" ==>
      SignatureMessage(timestamp, httpMethod, requestPath, body) == PreHash(timestamp, httpMethod, requestPath, body)
    ensures body in {"{}", "None", ""} ==>
      SignatureMessage(timestamp, httpMethod, requestPath, body) == timestamp + Upper(httpMethod) + requestPath
  {
  }

  // ---------------------------------------------------------------------------
  // get_header

  /** The header names of the exchange API (held in `consts.py`, which is not part of this model). */
  const ContentType := "Content-Type"
  const ApplicationJson := "application/json"
  const AccessProject := "OK-ACCESS-PROJECT"
  const AccessKey := "OK-ACCESS-KEY"
  const AccessSign := "OK-ACCESS-SIGN"
  const AccessTimestamp := "OK-ACCESS-TIMESTAMP"
  const AccessPassphrase := "OK-ACCESS-PASSPHRASE"

  /** `get_header(project_id, api_key, sign, timestamp, passphrase)`, filled one key at a time. */
  method GetHeader(projectId: string, apiKey: string, sign: string, timestamp: string, passphrase: string)
    returns (header: map<string, string>)
    ensures header.Keys == {ContentType, AccessProject, AccessKey, AccessSign, AccessTimestamp, AccessPassphrase}
    ensures |header| == 6
    ensures header[ContentType] == ApplicationJson
    ensures header[AccessProject] == projectId && header[AccessKey] == apiKey && header[AccessSign] == sign
    ensures header[AccessTimestamp] == timestamp && header[AccessPassphrase] == passphrase
  {
    header := map[];
    header := header[ContentType := ApplicationJson];
    header := header[AccessProject := projectId];
    header := header[AccessKey := apiKey];
    header := header[AccessSign := sign];
    header := header[AccessTimestamp := timestamp];
    header := header[AccessPassphrase := passphrase];
  }

  // ---------------------------------------------------------------------------
  // _sign_transcation

  /** The JSON values a transaction dictionary and a request body hold. */
  datatype Json =
    | JNull
    | JBool(b: bool)
    | JInt(i: int)
    | JStr(s: string)
    | JObject(fields: map<string, Json>)

  /** Python truthiness of a value. */
  predicate Truthy(v: Json)
  {
    match v
    case JNull => false
    case JBool(b) => b
    case JInt(i) => i != 0
    case JStr(s) => s != ""
    case JObject(m) => m != map[]
  }

  /** The custodial signer's RPC call: where it goes, its headers and its JSON body. */
  datatype SignRequest = SignRequest(url: string, headers: map<string, string>, body: Json)

  const SignerBaseUrl := "https://api.privy.io/v1/wallets/"
  const SignMethod := "eth_signTransaction"

  /** The keys `_sign_transcation` reads, in the order it reads them. */
  const SourceKeys: seq<string> := ["to", "nonce", "gas", "gasPrice", "value", "chainId"]
  /** The signer's name for each of them. */
  const SignerKeys: seq<string> := ["to", "nonce", "gas_limit", "gas_price", "value", "chain_id"]

  /** The first key the transaction lacks, which Python reports as a KeyError. */
  function FirstMissing(tx: map<string, Json>, keys: seq<string>): (r: Option<nat>)
    ensures r.Some? ==> r.value < |keys| && keys[r.value] !in tx && forall j :: 0 <= j < r.value ==> keys[j] in tx
    ensures r.None? ==> forall j :: 0 <= j < |keys| ==> keys[j] in tx
  {
    if keys == [] then None
    else if keys[0] !in tx then Some(0)
    else match FirstMissing(tx, keys[1..])
      case None => None
      case Some(j) => Some(j + 1)
  }

  predicate HasSourceKeys(tx: map<string, Json>)
  {
    "to" in tx && "nonce" in tx && "gas" in tx && "gasPrice" in tx && "value" in tx && "chainId" in tx
  }

  /** The transaction record of a signing request body. */
  function SignedTransaction(body: Json): Option<map<string, Json>>
  {
    if body.JObject? && "params" in body.fields && body.fields["params"].JObject?
       && "transaction" in body.fields["params"].fields && body.fields["params"].fields["transaction"].JObject?
    then Some(body.fields["params"].fields["transaction"].fields)
    else None
  }

  /** Undoes the renaming: the signer's record read back under the transaction's own key names. */
  function RenameBack(t: map<string, Json>): map<string, Json>
  {
    map k | k in SourceKeys && SignerKeys[Index(k)] in t :: t[SignerKeys[Index(k)]]
  }

  function Index(k: string): (i: nat)
    requires k in SourceKeys
    ensures i < |SourceKeys| && SourceKeys[i] == k
  {
    if k == "to" then 0 else if k == "nonce" then 1 else if k == "gas" then 2
    else if k == "gasPrice" then 3 else if k == "value" then 4 else 5
  }

  /** The signer's record carries the transaction's six fields under its own names, and reads back to them. */
  lemma RenameBackInverts(tx: map<string, Json>, t: map<string, Json>)
    requires HasSourceKeys(tx)
    requires forall i :: 0 <= i < |SourceKeys| ==> SignerKeys[i] in t && t[SignerKeys[i]] == tx[SourceKeys[i]]
    ensures RenameBack(t) == map k | k in SourceKeys :: tx[k]
  {
    forall k | k in SourceKeys
      ensures SignerKeys[Index(k)] in t && t[SignerKeys[Index(k)]] == tx[k]
    {
      var i := Index(k);
    }
  }

  /** The record `_sign_transcation` builds: the renamed fields, `type` 0, and `data` when truthy. */
  method SignerRecord(tx: map<string, Json>) returns (t: map<string, Json>)
    requires HasSourceKeys(tx)
    ensures t.Keys == {"to", "nonce", "gas_limit", "gas_price", "value", "chain_id", "type"}
                      + (if "data" in tx && Truthy(tx["data"]) then {"data"} else {})
    ensures t["to"] == tx["to"] && t["nonce"] == tx["nonce"] && t["value"] == tx["value"]
    ensures t["gas_limit"] == tx["gas"] && t["gas_price"] == tx["gasPrice"] && t["chain_id"] == tx["chainId"]
    ensures t["type"] == JInt(0)
    ensures "data" in t ==> t["data"] == tx["data"]
    ensures RenameBack(t) == map k | k in SourceKeys :: tx[k]
  {
    t := map[
      "to" := tx["to"],
      "nonce" := tx["nonce"],
      "gas_limit" := tx["gas"],
      "gas_price" := tx["gasPrice"],
      "value" := tx["value"],
      "chain_id" := tx["chainId"],
      "type" := JInt(0)
    ];
    var data := if "data" in tx then tx["data"] else JNull;
    if Truthy(data) {
      t := t["data" := data];
    }
    assert forall i :: 0 <= i < |SourceKeys| ==> SignerKeys[i] in t && t[SignerKeys[i]] == tx[SourceKeys[i]];
    RenameBackInverts(tx, t);
  }

  /**
   * `_sign_transcation(app_id, wallet_id, tx)` up to the HTTP POST: the renamed record,
   * `type` 0, `data` only when the transaction's `data` is present and truthy, and the RPC
   * body around it. A missing key is the KeyError Python raises (the key's name).
   */
  method SignTransaction(appId: string, walletId: string, tx: map<string, Json>) returns (r: Result<SignRequest, string>)
    ensures r.Err? <==> !HasSourceKeys(tx)
    ensures r.Err? ==> FirstMissing(tx, SourceKeys).Some? && r.error == SourceKeys[FirstMissing(tx, SourceKeys).value]
    ensures r.Ok? ==>
      && r.value.url == SignerBaseUrl + walletId + "/rpc"
      && r.value.headers == map["privy-app-id" := appId, "Content-Type" := "application/json"]
      && r.value.body.JObject? && r.value.body.fields.Keys == {"method", "params"}
      && r.value.body.fields["method"] == JStr(SignMethod)
      && SignedTransaction(r.value.body).Some?
      && var t := SignedTransaction(r.value.body).value;
        && t.Keys == {"to", "nonce", "gas_limit", "gas_price", "value", "chain_id", "type"}
                     + (if "data" in tx && Truthy(tx["data"]) then {"data"} else {})
        && t["to"] == tx["to"] && t["nonce"] == tx["nonce"] && t["value"] == tx["value"]
        && t["gas_limit"] == tx["gas"] && t["gas_price"] == tx["gasPrice"] && t["chain_id"] == tx["chainId"]
        && t["type"] == JInt(0)
        && ("data" in t ==> t["data"] == tx["data"])
        && RenameBack(t) == map k | k in SourceKeys :: tx[k]
  {
    var missing := FirstMissing(tx, SourceKeys);
    if missing.Some? {
      assert SourceKeys[missing.value] !in tx;
      return Err(SourceKeys[missing.value]);
    }
    assert SourceKeys[0] in tx && SourceKeys[1] in tx && SourceKeys[2] in tx;
    assert SourceKeys[3] in tx && SourceKeys[4] in tx && SourceKeys[5] in tx;
    var transaction := SignerRecord(tx);
    var body := JObject(map[
      "method" := JStr(SignMethod),
      "params" := JObject(map["transaction" := JObject(transaction)])
    ]);
    var headers := map["privy-app-id" := appId, "Content-Type" := "application/json"];
    return Ok(SignRequest(SignerBaseUrl + walletId + "/rpc", headers, body));
  }
}
