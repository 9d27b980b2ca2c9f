/** lib/cardsetup.ts: which payment providers the store offers, the Card
    Setup invoice payload, and the success checks on the gateway's replies.
    The HTTP calls themselves are the gateway's: their parsed replies are
    inputs. */
module CardSetupClient {
  import opened Wrappers
  import opened Json
  import Radix
  import Text
  import SiteSettings

  /** `provider === "cardsetup" || provider === "both"`. */
  predicate UsesCardSetup(provider: Json) {
    provider == JStr("cardsetup") || provider == JStr("both")
  }

  /** `provider === "stripe" || provider === "both"`. */
  predicate UsesStripe(provider: Json) {
    provider == JStr("stripe") || provider == JStr("both")
  }

  /** `shouldUseCardSetup`, reading the provider from the settings table. */
  function ShouldUseCardSetup(rows: seq<SiteSettings.SettingRow>, fault: bool): (b: bool)
    ensures fault ==> !b
    ensures (forall i :: 0 <= i < |rows| ==> rows[i].key != "payment_provider") ==> !b
    ensures b ==> exists i :: 0 <= i < |rows| && rows[i].key == "payment_provider" && UsesCardSetup(rows[i].value)
  {
    UsesCardSetup(SiteSettings.GetPaymentProvider(rows, fault))
  }

  /** `shouldUseStripe`, reading the provider from the settings table. */
  function ShouldUseStripe(rows: seq<SiteSettings.SettingRow>, fault: bool): (b: bool)
    ensures fault ==> b
    ensures (forall i :: 0 <= i < |rows| ==> rows[i].key != "payment_provider") ==> b
    ensures !b ==> exists i :: 0 <= i < |rows| && rows[i].key == "payment_provider" && !UsesStripe(rows[i].value)
  {
    UsesStripe(SiteSettings.GetPaymentProvider(rows, fault))
  }

  /** For each of the three declared providers at least one payment path is
      offered, and both only for "both". A stored value outside the three
      turns both off. */
  lemma ProvidersCovered(provider: Json)
    ensures provider in {JStr("stripe"), JStr("cardsetup"), JStr("both")} ==>
      UsesCardSetup(provider) || UsesStripe(provider)
    ensures UsesCardSetup(provider) && UsesStripe(provider) <==> provider == JStr("both")
    ensures provider !in {JStr("stripe"), JStr("cardsetup"), JStr("both")} ==>
      !UsesCardSetup(provider) && !UsesStripe(provider)
  {
  }

  /** The two decimal digits of a number of cents below 100. */
  function Cents(c: nat): (s: string)
    requires c < 100
    ensures |s| == 2
  {
    [Radix.DigitChar(c / 10), Radix.DigitChar(c % 10)]
  }

  /** `(cents / 100).toFixed(2)`: dollars with exactly two decimals, with a
      leading "-" for a negative amount. */
  function DollarsText(cents: int): (s: string)
    ensures |s| >= 4 && s[|s| - 3] == '.'
    ensures cents >= 0 ==> s[0] != '-'
  {
    var a := if cents < 0 then -cents else cents;
    var whole := Radix.ToRadix(a / 100, 10);
    (if cents < 0 then "-" else "") + whole + "." + Cents(a % 100)
  }

  /** Reads a dollar amount with two decimals back into cents. */
  function ParseDollars(s: string): Option<int> {
    if |s| > 0 && s[0] == '-' then
      match ParseUnsigned(s[1..])
      case None => None
      case Some(v) => Some(-v)
    else ParseUnsigned(s)
  }

  function ParseUnsigned(body: string): Option<int> {
    if |body| < 4 || body[|body| - 3] != '.' then None
    else
      var whole := body[..|body| - 3];
      var frac := body[|body| - 2..];
      if !Radix.AllDigits(whole, 10) || !Radix.AllDigits(frac, 10) then None
      else Some(Radix.FromRadix(whole, 10) * 100 + Radix.FromRadix(frac, 10))
  }

  lemma CentsValue(c: nat)
    requires c < 100
    ensures Radix.AllDigits(Cents(c), 10) && Radix.FromRadix(Cents(c), 10) == c
  {
    var s := Cents(c);
    Radix.DigitCharValue(c / 10);
    Radix.DigitCharValue(c % 10);
    assert s[..1] == [s[0]] && s[..1][..0] == [];
    assert Radix.FromRadix(s[..1], 10) == c / 10;
    assert Radix.FromRadix(s, 10) == (c / 10) * 10 + c % 10;
  }

  /** The amount sent in an invoice reads back as the cents it came from:
      1999 is sent as "19.99". */
  lemma DollarsRoundTrip(cents: int)
    ensures ParseDollars(DollarsText(cents)) == Some(cents)
  {
    var a := if cents < 0 then -cents else cents;
    var whole := Radix.ToRadix(a / 100, 10);
    var body := whole + "." + Cents(a % 100);
    var s := DollarsText(cents);
    Text.Regroup(if cents < 0 then "-" else "", whole, ".", Cents(a % 100));
    BodyRoundTrip(a);
    if cents < 0 {
      assert s[0] == '-' && s[1..] == body;
      assert ParseDollars(s) == Some(-a);
    } else {
      assert s == body;
      assert ParseDollars(s) == ParseUnsigned(body);
    }
  }

  lemma BodyRoundTrip(a: nat)
    ensures var whole := Radix.ToRadix(a / 100, 10);
      var body := whole + "." + Cents(a % 100);
      && |body| >= 4 && body[|body| - 3] == '.'
      && body[..|body| - 3] == whole && body[|body| - 2..] == Cents(a % 100)
      && Radix.AllDigits(whole, 10) && Radix.AllDigits(Cents(a % 100), 10)
      && ParseUnsigned(body) == Some(a) && body[0] != '-'
  {
    var whole := Radix.ToRadix(a / 100, 10);
    var body := whole + "." + Cents(a % 100);
    Radix.RadixRoundTrip(a / 100, 10);
    CentsValue(a % 100);
    PointSplit(whole, Cents(a % 100));
    assert (a / 100) * 100 + a % 100 == a;
  }

  /** Where the point sits in `whole + "." + frac`. */
  lemma PointSplit(whole: string, frac: string)
    requires |whole| >= 1 && |frac| == 2
    ensures var body := whole + "." + frac;
      && |body| == |whole| + 3 && body[|body| - 3] == '.'
      && body[..|body| - 3] == whole && body[|body| - 2..] == frac && body[0] == whole[0]
  {
    var body := whole + "." + frac;
    assert body[..|body| - 3] == whole;
    assert body[|body| - 2..] == frac;
  }

  lemma DollarsExample()
    ensures DollarsText(1999) == "19.99" && DollarsText(-50) == "-0.50"
  {
    assert Radix.ToRadix(1, 10) == "1";
    assert Radix.ToRadix(19, 10) == "19";
    assert Radix.ToRadix(0, 10) == "0";
    assert Cents(99) == "99" && Cents(50) == "50";
  }

  /** The invoice payload of `createCardSetupInvoice`: the store address,
      the invoice id, the amount in dollars, "USD", one purchase line, the
      e-mail, the callback and, when given, the order note. */
  function InvoicePayload(store: Json, invoiceId: string, amountCents: int, productName: string,
                          email: string, callbackUrl: string, orderInfo: Option<string>): (p: Json)
    ensures p.JObj? && "amount" in p.fields && "currency" in p.fields && "store" in p.fields && "invoice_id" in p.fields
    ensures p.fields["amount"] == JStr(DollarsText(amountCents)) && p.fields["currency"] == JStr("USD")
    ensures p.fields["store"] == store && p.fields["invoice_id"] == JStr(invoiceId)
    ensures "orderinfo" in p.fields <==> orderInfo.Some?
  {
    var fields := map[
      "store" := store,
      "invoice_id" := JStr(invoiceId),
      "amount" := JStr(DollarsText(amountCents)),
      "currency" := JStr("USD"),
      "purchases" := JArr([JObj(map["name" := JStr(productName)])]),
      "email" := JStr(email),
      "callbackURL" := JStr(callbackUrl)
    ];
    JObj(if orderInfo.Some? then fields["orderinfo" := JStr(orderInfo.value)] else fields)
  }

  /** The payload as `createCardSetupInvoice` builds it, with the store
      address read from the `cardsetup_store_url` setting. */
  function CreatePayload(rows: seq<SiteSettings.SettingRow>, settingFault: bool, invoiceId: string, amountCents: int,
                         productName: string, email: string, callbackUrl: string, orderInfo: Option<string>): (p: Json)
    ensures p.JObj? && "store" in p.fields && "amount" in p.fields
    ensures settingFault || (forall i :: 0 <= i < |rows| ==> rows[i].key != "cardsetup_store_url") ==>
      p.fields["store"] == JStr("https://warpcheats.com")
    ensures p.fields["store"] != JStr("https://warpcheats.com") ==>
      exists i :: 0 <= i < |rows| && rows[i].key == "cardsetup_store_url" && rows[i].value == p.fields["store"]
    ensures p.fields["amount"] == JStr(DollarsText(amountCents))
  {
    InvoicePayload(SiteSettings.GetSetting(rows, "cardsetup_store_url", settingFault),
                   invoiceId, amountCents, productName, email, callbackUrl, orderInfo)
  }

  /** `new Error(m || fallback)`: the message of a thrown error. */
  function MessageOr(m: Option<Json>, fallback: string): (s: string)
    ensures !Truthy(m) ==> s == fallback
  {
    if Truthy(m) then ToJsString(m) else fallback
  }

  /** The create-invoice reply check: a `null` reply throws a `TypeError`
      at `result.success`; any other reply without a truthy `success`
      throws with the first of its `errors`, or a fixed message. */
  function CheckCreated(reply: Json): (r: Result<Json>)
    ensures r.Success? <==> Truthy(Prop(Some(reply), "success"))
    ensures r.Success? ==> r.value == reply
    ensures reply.JNull? ==> r == Failure(TypeErrorMessage)
    ensures r.Failure? && !reply.JNull? && !Truthy(Item(Prop(Some(reply), "errors"), 0)) ==>
      r.error == "Failed to create Card Setup invoice"
    ensures r.Failure? && !reply.JNull? && Truthy(Item(Prop(Some(reply), "errors"), 0)) ==>
      r.error == ToJsString(Item(Prop(Some(reply), "errors"), 0))
  {
    if reply.JNull? then Failure(TypeErrorMessage)
    else if !Truthy(Prop(Some(reply), "success")) then
      Failure(MessageOr(Item(Prop(Some(reply), "errors"), 0), "Failed to create Card Setup invoice"))
    else Success(reply)
  }

  /** `finalizeCardSetupInvoice`'s request body. */
  function FinalizeRequest(transactionId: string): Json {
    JObj(map["transactionid" := JStr(transactionId)])
  }

  /** The finalize reply check: a `null` reply throws a `TypeError` at
      `result.success`; any other reply without a truthy `success` throws
      with its `error`, or a fixed message. */
  function CheckFinalized(reply: Json): (r: Result<Json>)
    ensures r.Success? <==> Truthy(Prop(Some(reply), "success"))
    ensures r.Success? ==> r.value == reply
    ensures reply.JNull? ==> r == Failure(TypeErrorMessage)
    ensures r.Failure? && !reply.JNull? && !Truthy(Prop(Some(reply), "error")) ==>
      r.error == "Failed to finalize payment"
    ensures r.Failure? && !reply.JNull? && Truthy(Prop(Some(reply), "error")) ==>
      r.error == ToJsString(Prop(Some(reply), "error"))
  {
    if reply.JNull? then Failure(TypeErrorMessage)
    else if !Truthy(Prop(Some(reply), "success")) then
      Failure(MessageOr(Prop(Some(reply), "error"), "Failed to finalize payment"))
    else Success(reply)
  }
}
