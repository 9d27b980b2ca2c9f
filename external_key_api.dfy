/** lib/external-key-api.ts: the supplier APIs that can hand out license
    keys for four products. The environment variables are an input, and so
    is the supplier's reply to the one request a configured product sends. */
module ExternalKeyApi {
  import opened Wrappers
  import opened Json
  import Radix

  datatype Config = Config(url: string, apiKey: string, httpMethod: string)

  /** `process.env.NAME || ''`. */
  function EnvOr(env: map<string, string>, name: string): string {
    if name in env then env[name] else ""
  }

  /** `API_CONFIGS`: one entry per supplier-backed product slug. */
  function Configs(env: map<string, string>): (m: map<string, Config>)
    ensures m.Keys == {"temp-spoofer", "perm-spoofer", "fortnite-public", "fortnite-private"}
  {
    map[
      "temp-spoofer" := Config(EnvOr(env, "TEMP_SPOOFER_API_URL"), EnvOr(env, "TEMP_SPOOFER_API_KEY"), "POST"),
      "perm-spoofer" := Config(EnvOr(env, "PERM_SPOOFER_API_URL"), EnvOr(env, "PERM_SPOOFER_API_KEY"), "POST"),
      "fortnite-public" := Config(EnvOr(env, "FORTNITE_PUBLIC_API_URL"), EnvOr(env, "FORTNITE_PUBLIC_API_KEY"), "POST"),
      "fortnite-private" := Config(EnvOr(env, "FORTNITE_PRIVATE_API_URL"), EnvOr(env, "FORTNITE_PRIVATE_API_KEY"), "POST")
    ]
  }

  /** `hasExternalAPI`: the slug has a config with a non-empty url and a
      non-empty key. */
  function HasExternalApi(env: map<string, string>, slug: string): (b: bool)
    ensures b <==> slug in Configs(env) && Configs(env)[slug].url != "" && Configs(env)[slug].apiKey != ""
  {
    var configs := Configs(env);
    slug in configs && configs[slug].url != "" && configs[slug].apiKey != ""
  }

  /** A product with no supplier API has none whatever the environment. */
  lemma OnlyFourSlugs(env: map<string, string>, slug: string)
    requires slug !in {"temp-spoofer", "perm-spoofer", "fortnite-public", "fortnite-private"}
    ensures !HasExternalApi(env, slug)
  {
  }

  datatype Params = Params(orderNumber: string, customerEmail: string, variantName: string, productName: string)

  /** The one request `fetchExternalLicenseKey` sends. */
  datatype Request = Request(url: string, httpMethod: string, headers: map<string, string>, body: Json)

  /** What the supplier did with the request: the call failed (with the
      message of the error, if it was an `Error`), or it answered with a
      status and a body that did or did not parse as JSON. */
  datatype Reply =
    | Unreachable(message: Option<string>)
    | Answered(status: int, body: Result<Json>)

  datatype FetchResult = Fetched(key: string) | NotFetched(error: string)

  /** The request for a configured product: slug, variant name as the
      duration, e-mail and order number, with a bearer token. */
  function RequestFor(config: Config, slug: string, params: Params): (r: Request)
    ensures "Authorization" in r.headers && r.headers["Authorization"] == "Bearer " + config.apiKey
    ensures r.body.JObj? && r.body.fields.Keys == {"product", "duration", "email", "orderId"}
    ensures r.body.fields["product"] == JStr(slug) && r.body.fields["duration"] == JStr(params.variantName)
    ensures r.body.fields["email"] == JStr(params.customerEmail) && r.body.fields["orderId"] == JStr(params.orderNumber)
  {
    Request(config.url, if config.httpMethod != "" then config.httpMethod else "POST",
            map["Content-Type" := "application/json", "Authorization" := "Bearer " + config.apiKey],
            JObj(map["product" := JStr(slug), "duration" := JStr(params.variantName),
                     "email" := JStr(params.customerEmail), "orderId" := JStr(params.orderNumber)]))
  }

  /** The fields a key may come in, in the order they are tried. */
  const KeyFields: seq<string> := ["key", "license_key", "licenseKey", "code", "license"]

  /** `data.key || data.license_key || data.licenseKey || data.code ||
      data.license`. */
  function KeyCandidate(data: Json): (v: Option<Json>)
    ensures Truthy(v) <==> exists i :: 0 <= i < |KeyFields| && Truthy(Prop(Some(data), KeyFields[i]))
    ensures Truthy(v) ==>
      exists i :: (0 <= i < |KeyFields| && v == Prop(Some(data), KeyFields[i])
                   && forall j :: 0 <= j < i ==> !Truthy(Prop(Some(data), KeyFields[j])))
  {
    var vs := seq(|KeyFields|, i requires 0 <= i < |KeyFields| => Prop(Some(data), KeyFields[i]));
    assert forall i :: 0 <= i < |KeyFields| ==> vs[i] == Prop(Some(data), KeyFields[i]);
    OrChain(vs)
  }

  /** `fetchExternalLicenseKey`: the request sent, if any, and the result.
      An unconfigured product sends nothing; every failure, thrown or not,
      comes back as a result. */
  function FetchExternalLicenseKey(env: map<string, string>, slug: string, params: Params, reply: Reply)
    : (out: (Option<Request>, FetchResult))
    ensures !HasExternalApi(env, slug) <==> out.0.None?
    ensures out.0.None? ==> out.1 == NotFetched("API not configured for this product")
    ensures out.0.Some? ==> out.0.value == RequestFor(Configs(env)[slug], slug, params)
    ensures out.0.Some? && reply.Answered? && !(200 <= reply.status < 300) ==>
      out.1 == NotFetched("API returned status " + Radix.IntToString(reply.status))
    ensures out.0.Some? && reply.Unreachable? ==> out.1 == NotFetched(reply.message.GetOr("Unknown error"))
    ensures out.1.Fetched? <==>
      out.0.Some? && reply.Answered? && 200 <= reply.status < 300 && reply.body.Success?
      && Truthy(KeyCandidate(reply.body.value))
    ensures out.1.Fetched? ==>
      reply.Answered? && reply.body.Success? && out.1.key == ToJsString(KeyCandidate(reply.body.value))
    ensures out.0.Some? && reply.Answered? && 200 <= reply.status < 300 && reply.body.Success? && reply.body.value.JNull? ==>
      out.1 == NotFetched(TypeErrorMessage)
  {
    if !HasExternalApi(env, slug) then (None, NotFetched("API not configured for this product"))
    else
      var request := RequestFor(Configs(env)[slug], slug, params);
      (Some(request), Outcome(reply))
  }

  /** What the reply to a sent request comes to. A `null` body makes
      `data.key` throw a `TypeError`, which the `catch` turns into a
      failed result carrying its message. */
  function Outcome(reply: Reply): (r: FetchResult)
    ensures r.Fetched? <==>
      reply.Answered? && 200 <= reply.status < 300 && reply.body.Success? && Truthy(KeyCandidate(reply.body.value))
    ensures r.Fetched? ==>
      reply.Answered? && reply.body.Success? && r.key == ToJsString(KeyCandidate(reply.body.value))
    ensures reply.Answered? && 200 <= reply.status < 300 && reply.body.Success? && reply.body.value.JNull? ==>
      r == NotFetched(TypeErrorMessage)
    ensures (reply.Answered? && 200 <= reply.status < 300 && reply.body.Success? && !reply.body.value.JNull?
             && !Truthy(KeyCandidate(reply.body.value))) ==>
      r == NotFetched("No license key found in API response")
  {
    match reply
    case Unreachable(message) => NotFetched(message.GetOr("Unknown error"))
    case Answered(status, body) =>
      if !(200 <= status < 300) then NotFetched("API returned status " + Radix.IntToString(status))
      else if body.Failure? then NotFetched(body.error)
      else if body.value.JNull? then NotFetched(TypeErrorMessage)
      else
        var key := KeyCandidate(body.value);
        if !Truthy(key) then NotFetched("No license key found in API response")
        else Fetched(ToJsString(key))
  }

  /** The first field wins: a reply carrying both `key` and `code` yields
      the `key`. */
  lemma FirstFieldWins(k: string, c: string)
    requires k != ""
    ensures Outcome(Answered(200, Success(JObj(map["code" := JStr(c), "key" := JStr(k)])))) == Fetched(k)
  {
    var data := JObj(map["code" := JStr(c), "key" := JStr(k)]);
    assert Prop(Some(data), KeyFields[0]) == Some(JStr(k));
  }

  /** A 2xx reply without any of the five fields is a failure. */
  lemma NoKeyField(status: int)
    requires 200 <= status < 300
    ensures Outcome(Answered(status, Success(JObj(map["id" := JNum(7)])))) ==
      NotFetched("No license key found in API response")
  {
    var data := JObj(map["id" := JNum(7)]);
    forall i | 0 <= i < |KeyFields| ensures !Truthy(Prop(Some(data), KeyFields[i])) {
      assert KeyFields[i] != "id";
    }
  }
}
