/**
 * The rate providers of `Services`: the registry that maps a provider's
 * page address to its API function, and the request URL each API function
 * builds from the four codes of a line.  The HTTP call itself is a
 * `Network` object whose answers are given from outside; each API
 * function turns a failed fetch into the rate 0.
 */
module Providers {
  import opened Wrappers
  import opened Text
  import opened Parser

  datatype Provider = Xoom | WorldRemit | Instarem | CurrencyFair | TransferGo | XendPay | Wise

  /** `SERVICE_MAPPING`: page address to the provider whose API function the report calls. */
  const ServiceMapping: map<string, Provider> := map[
    "https://www.xoom.com/" := Xoom,
    "https://www.worldremit.com/" := WorldRemit,
    "https://www.instarem.com/" := Instarem,
    "https://app.currencyfair.com/" := CurrencyFair,
    "https://my.transfergo.com/" := TransferGo,
    "https://secure.xendpay.com/" := XendPay,
    "https://wise.com/" := Wise
  ]

  /** The page address under which a provider is registered. */
  function Page(p: Provider): string {
    match p
    case Xoom => "https://www.xoom.com/"
    case WorldRemit => "https://www.worldremit.com/"
    case Instarem => "https://www.instarem.com/"
    case CurrencyFair => "https://app.currencyfair.com/"
    case TransferGo => "https://my.transfergo.com/"
    case XendPay => "https://secure.xendpay.com/"
    case Wise => "https://wise.com/"
  }

  /** `SERVICE_MAPPING[page]`: `None` where Python raises `KeyError`. */
  function Lookup(page: string): (p: Option<Provider>)
    ensures p.Some? <==> page in ServiceMapping
    ensures p.Some? ==> Page(p.value) == page
  {
    if page in ServiceMapping then Some(ServiceMapping[page]) else None
  }

  /** Every provider is registered exactly once, under its page address. */
  lemma {:induction false} RegistryRoundTrip(p: Provider)
    ensures Lookup(Page(p)) == Some(p)
    ensures |ServiceMapping| == 7
  {
    assert ServiceMapping.Keys == {Page(Xoom), Page(WorldRemit), Page(Instarem), Page(CurrencyFair),
                                   Page(TransferGo), Page(XendPay), Page(Wise)};
  }

  /** The API endpoints; each lies under the page address its provider is registered with. */
  const InstaremApi: string := Page(Instarem) + "api/v1/public/transaction/computed-value?"
  const CurrencyFairApi: string := Page(CurrencyFair) + "calculator/quicktrade-quote?"
  const TransferGoApi: string := Page(TransferGo) + "api/transfers/quote?"
  const XendPayApi: string := Page(XendPay) + "rate/XP/"
  const WiseApi: string := Page(Wise) + "rates/history?"

  /** `instarem_api`: the source country is the only country it sends. */
  function InstaremUrl(srcCountry: string, srcCurrency: string, dstCountry: string, dstCurrency: string): string {
    InstaremApi + Join('&', [
      "source_currency=" + srcCurrency,
      "destination_currency=" + dstCurrency,
      "country_code=" + srcCountry,
      "source_amount=1000"])
  }

  /** `currencyfair_api`: a quote for selling 40000 of the source currency. */
  function CurrencyFairUrl(srcCountry: string, srcCurrency: string, dstCountry: string, dstCurrency: string): string {
    CurrencyFairApi + Join('&', [
      "depositCurrency=" + srcCurrency,
      "beneficiaryCurrency=" + dstCurrency,
      "amount=40000",
      "mode=SELL"])
  }

  /** `transfergo_api`: a quote for sending 300.00, with both countries. */
  function TransferGoUrl(srcCountry: string, srcCurrency: string, dstCountry: string, dstCurrency: string): string {
    TransferGoApi + Join('&', [
      "fromCountryCode=" + srcCountry,
      "toCountryCode=" + dstCountry,
      "fromCurrencyCode=" + srcCurrency,
      "toCurrencyCode=" + dstCurrency,
      "calculationBase=sendAmount",
      "amount=300.00"])
  }

  /** `xendpay_api`: the currencies are path segments, not parameters. */
  function XendPayUrl(srcCountry: string, srcCurrency: string, dstCountry: string, dstCurrency: string): string {
    XendPayApi + srcCurrency + "/" + dstCurrency + "?cdc=true"
  }

  /** `wise_api`: the last hour of the rate history; the fixed tail is one string holding three parameters. */
  function WiseUrl(srcCountry: string, srcCurrency: string, dstCountry: string, dstCurrency: string): string {
    WiseApi + Join('&', [
      "source=" + srcCurrency,
      "target=" + dstCurrency,
      "length=1&unit=day&resolution=hourly"])
  }

  /**
   * The URL the provider's API function fetches for a line.  Xoom and
   * WorldRemit are registered but `Services` has no function for them, so
   * the `eval` of their name fails: `None`.
   */
  function Url(p: Provider, r: Request): (url: Option<string>)
    ensures url.None? <==> p == Xoom || p == WorldRemit
  {
    match p
    case Xoom => None
    case WorldRemit => None
    case Instarem => Some(InstaremUrl(r.srcCountry, r.srcCurrency, r.dstCountry, r.dstCurrency))
    case CurrencyFair => Some(CurrencyFairUrl(r.srcCountry, r.srcCurrency, r.dstCountry, r.dstCurrency))
    case TransferGo => Some(TransferGoUrl(r.srcCountry, r.srcCurrency, r.dstCountry, r.dstCurrency))
    case XendPay => Some(XendPayUrl(r.srcCountry, r.srcCurrency, r.dstCountry, r.dstCurrency))
    case Wise => Some(WiseUrl(r.srcCountry, r.srcCurrency, r.dstCountry, r.dstCurrency))
  }

  /** The part of a provider's URL in front of its query parameters. */
  function Address(p: Provider, r: Request): string {
    match p
    case Instarem => InstaremApi
    case CurrencyFair => CurrencyFairApi
    case TransferGo => TransferGoApi
    case XendPay => XendPayApi + r.srcCurrency + "/" + r.dstCurrency + "?"
    case Wise => WiseApi
    case _ => ""
  }

  /** The `key=value` parameters a provider's query carries, in order. */
  function Parameters(p: Provider, r: Request): seq<string> {
    match p
    case Instarem => ["source_currency=" + r.srcCurrency, "destination_currency=" + r.dstCurrency,
                      "country_code=" + r.srcCountry, "source_amount=1000"]
    case CurrencyFair => ["depositCurrency=" + r.srcCurrency, "beneficiaryCurrency=" + r.dstCurrency,
                          "amount=40000", "mode=SELL"]
    case TransferGo => ["fromCountryCode=" + r.srcCountry, "toCountryCode=" + r.dstCountry,
                        "fromCurrencyCode=" + r.srcCurrency, "toCurrencyCode=" + r.dstCurrency,
                        "calculationBase=sendAmount", "amount=300.00"]
    case XendPay => ["cdc=true"]
    case Wise => ["source=" + r.srcCurrency, "target=" + r.dstCurrency,
                  "length=1", "unit=day", "resolution=hourly"]
    case _ => []
  }

  /** No code of the request contains the parameter separator. */
  predicate Separable(r: Request) {
    '&' !in r.srcCountry && '&' !in r.srcCurrency && '&' !in r.dstCountry && '&' !in r.dstCurrency
  }

  lemma WordsSeparable(s: string)
    requires AllIn(Word, s)
    ensures '&' !in s
  {
    forall i | 0 <= i < |s| ensures s[i] != '&' {
      assert In(Word, s[i]);
    }
  }

  /** A parsed code is made of word characters, so it cannot break a query apart. */
  lemma CodesSeparable(r: Request)
    requires Code(r.srcCountry) && Code(r.srcCurrency) && Code(r.dstCountry) && Code(r.dstCurrency)
    ensures Separable(r)
  {
    WordsSeparable(r.srcCountry);
    WordsSeparable(r.srcCurrency);
    WordsSeparable(r.dstCountry);
    WordsSeparable(r.dstCurrency);
  }

  /** The fixed tail of `wise_api` is three parameters joined with `&`. */
  lemma WiseTail()
    ensures Join('&', ["length=1", "unit=day", "resolution=hourly"]) == "length=1&unit=day&resolution=hourly"
  {
    JoinCons('&', "unit=day", ["resolution=hourly"]);
    JoinCons('&', "length=1", ["unit=day", "resolution=hourly"]);
    assert ["length=1"] + ["unit=day", "resolution=hourly"] == ["length=1", "unit=day", "resolution=hourly"];
    assert ["unit=day"] + ["resolution=hourly"] == ["unit=day", "resolution=hourly"];
    WiseTailLiterals();
  }

  /** Serves `WiseTail`: the two concatenations of string literals it needs. */
  lemma WiseTailLiterals()
    ensures "unit=day" + "&" + "resolution=hourly" == "unit=day&resolution=hourly"
    ensures "length=1" + "&" + "unit=day&resolution=hourly" == "length=1&unit=day&resolution=hourly"
  {
  }

  /** Joining two parts and a joined tail is joining the parts and the tail's parts. */
  lemma JoinFlatten(sep: char, x: string, y: string, tail: seq<string>)
    requires tail != []
    ensures Join(sep, [x, y, Join(sep, tail)]) == Join(sep, [x, y] + tail)
  {
    JoinCons(sep, y, [Join(sep, tail)]);
    JoinCons(sep, x, [y, Join(sep, tail)]);
    JoinCons(sep, y, tail);
    JoinCons(sep, x, [y] + tail);
    assert [x] + [y, Join(sep, tail)] == [x, y, Join(sep, tail)];
    assert [y] + [Join(sep, tail)] == [y, Join(sep, tail)];
    assert [x] + ([y] + tail) == [x, y] + tail;
  }

  /** Splitting the query of `wise_api` at `&` gives its five parameters. */
  lemma WiseQuery(source: string, target: string)
    ensures Join('&', [source, target, "length=1&unit=day&resolution=hourly"]) ==
            Join('&', [source, target, "length=1", "unit=day", "resolution=hourly"])
  {
    var tail := ["length=1", "unit=day", "resolution=hourly"];
    WiseTail();
    JoinFlatten('&', source, target, tail);
    assert [source, target] + tail == [source, target, "length=1", "unit=day", "resolution=hourly"];
  }

  /** Each provider's URL is its address followed by its parameters joined with `&`. */
  lemma UrlIsQuery(p: Provider, r: Request)
    requires Url(p, r).Some?
    ensures Url(p, r).value == Address(p, r) + Join('&', Parameters(p, r))
  {
    if p == XendPay {
      assert Join('&', ["cdc=true"]) == "cdc=true";
    } else if p == Wise {
      WiseQuery("source=" + r.srcCurrency, "target=" + r.dstCurrency);
    }
  }

  lemma ParametersSeparable(p: Provider, r: Request)
    requires Separable(r)
    ensures forall j | 0 <= j < |Parameters(p, r)| :: '&' !in Parameters(p, r)[j]
  {
    match p
    case Instarem => InstaremSeparable(r);
    case CurrencyFair => CurrencyFairSeparable(r);
    case TransferGo => TransferGoSeparable(r);
    case Wise => WiseSeparable(r);
    case XendPay => assert '&' !in "cdc=true";
    case _ =>
  }

  lemma InstaremSeparable(r: Request)
    requires Separable(r)
    ensures forall j | 0 <= j < |Parameters(Instarem, r)| :: '&' !in Parameters(Instarem, r)[j]
  {
    Keyed("source_currency=", r.srcCurrency);
    Keyed("destination_currency=", r.dstCurrency);
    Keyed("country_code=", r.srcCountry);
    assert '&' !in "source_amount=1000";
  }

  lemma CurrencyFairSeparable(r: Request)
    requires Separable(r)
    ensures forall j | 0 <= j < |Parameters(CurrencyFair, r)| :: '&' !in Parameters(CurrencyFair, r)[j]
  {
    Keyed("depositCurrency=", r.srcCurrency);
    Keyed("beneficiaryCurrency=", r.dstCurrency);
    assert '&' !in "amount=40000" && '&' !in "mode=SELL";
  }

  lemma TransferGoSeparable(r: Request)
    requires Separable(r)
    ensures forall j | 0 <= j < |Parameters(TransferGo, r)| :: '&' !in Parameters(TransferGo, r)[j]
  {
    Keyed("fromCountryCode=", r.srcCountry);
    Keyed("toCountryCode=", r.dstCountry);
    Keyed("fromCurrencyCode=", r.srcCurrency);
    Keyed("toCurrencyCode=", r.dstCurrency);
    assert '&' !in "calculationBase=sendAmount" && '&' !in "amount=300.00";
  }

  lemma WiseSeparable(r: Request)
    requires Separable(r)
    ensures forall j | 0 <= j < |Parameters(Wise, r)| :: '&' !in Parameters(Wise, r)[j]
  {
    Keyed("source=", r.srcCurrency);
    Keyed("target=", r.dstCurrency);
    assert '&' !in "length=1" && '&' !in "unit=day" && '&' !in "resolution=hourly";
  }

  /** Serves the per-provider `…Separable` lemmas: a key without `&` followed by a code without `&`. */
  lemma Keyed(key: string, code: string)
    requires '&' !in key && '&' !in code
    ensures '&' !in key + code
  {
  }

  /**
   * Splitting the query of a provider's URL at `&` gives its parameters
   * back, so each code reaches the provider under its own key.
   */
  lemma UrlQuery(p: Provider, r: Request)
    requires Url(p, r).Some? && Separable(r)
    ensures var url := Url(p, r).value; var a := Address(p, r);
            |a| <= |url| && url[..|a|] == a && Split(url[|a|..], '&') == Parameters(p, r)
  {
    UrlIsQuery(p, r);
    ParametersSeparable(p, r);
    QueryRoundTrip(Address(p, r), Parameters(p, r));
  }

  /** An address followed by `&`-joined parameters that do not contain `&`. */
  lemma QueryRoundTrip(a: string, ps: seq<string>)
    requires |ps| > 0 && forall j | 0 <= j < |ps| :: '&' !in ps[j]
    ensures var url := a + Join('&', ps); url[..|a|] == a && Split(url[|a|..], '&') == ps
  {
    var url := a + Join('&', ps);
    assert url[|a|..] == Join('&', ps);
    SplitJoin(ps, '&');
  }

  /**
   * What determines a URL: the currencies always, the source country only
   * for instarem and transfergo, the destination country only for
   * transfergo.
   */
  lemma UrlIgnores(p: Provider, r: Request, s: Request)
    requires r.srcCurrency == s.srcCurrency && r.dstCurrency == s.dstCurrency
    requires (p == Instarem || p == TransferGo) ==> r.srcCountry == s.srcCountry
    requires p == TransferGo ==> r.dstCountry == s.dstCountry
    ensures Url(p, r) == Url(p, s)
  {
  }

  /**
   * The converse of `UrlIgnores`: the URL gives back both currencies, the
   * source country for instarem and transfergo, and the destination country
   * for transfergo, as long as no code holds a separator.
   */
  lemma UrlDistinguishes(p: Provider, r: Request, s: Request)
    requires Url(p, r).Some? && Url(p, r) == Url(p, s)
    requires Separable(r) && Separable(s)
    requires p == XendPay ==> '/' !in r.srcCurrency && '/' !in s.srcCurrency
    ensures r.srcCurrency == s.srcCurrency && r.dstCurrency == s.dstCurrency
    ensures (p == Instarem || p == TransferGo) ==> r.srcCountry == s.srcCountry
    ensures p == TransferGo ==> r.dstCountry == s.dstCountry
  {
    if p == XendPay {
      XendPaySegments(r);
      XendPaySegments(s);
      SegmentsInjective(r.srcCurrency, r.dstCurrency, s.srcCurrency, s.dstCurrency);
    } else {
      UrlQuery(p, r);
      UrlQuery(p, s);
      var ps, qs := Parameters(p, r), Parameters(p, s);
      assert ps == qs;
      match p
      case Instarem =>
        KeyedInjective("source_currency=", r.srcCurrency, s.srcCurrency);
        KeyedInjective("destination_currency=", r.dstCurrency, s.dstCurrency);
        KeyedInjective("country_code=", r.srcCountry, s.srcCountry);
      case CurrencyFair =>
        KeyedInjective("depositCurrency=", r.srcCurrency, s.srcCurrency);
        KeyedInjective("beneficiaryCurrency=", r.dstCurrency, s.dstCurrency);
      case TransferGo =>
        KeyedInjective("fromCountryCode=", r.srcCountry, s.srcCountry);
        KeyedInjective("toCountryCode=", r.dstCountry, s.dstCountry);
        KeyedInjective("fromCurrencyCode=", r.srcCurrency, s.srcCurrency);
        KeyedInjective("toCurrencyCode=", r.dstCurrency, s.dstCurrency);
      case Wise =>
        KeyedInjective("source=", r.srcCurrency, s.srcCurrency);
        KeyedInjective("target=", r.dstCurrency, s.dstCurrency);
    }
  }

  /** Serves `UrlDistinguishes`: the key in front of a parameter value can be stripped. */
  lemma KeyedInjective(key: string, x: string, y: string)
    requires key + x == key + y
    ensures x == y
  {
    assert x == (key + x)[|key|..];
    assert y == (key + y)[|key|..];
  }

  /** Serves `UrlDistinguishes`: the path of `xendpay_api` between its fixed prefix and suffix. */
  lemma XendPaySegments(r: Request)
    ensures var url := XendPayUrl(r.srcCountry, r.srcCurrency, r.dstCountry, r.dstCurrency);
            |XendPayApi| + 9 <= |url| && url[|XendPayApi|..|url| - 9] == r.srcCurrency + "/" + r.dstCurrency
  {
    var url := XendPayUrl(r.srcCountry, r.srcCurrency, r.dstCountry, r.dstCurrency);
    assert url == XendPayApi + (r.srcCurrency + "/" + r.dstCurrency) + "?cdc=true";
  }

  /** Serves `UrlDistinguishes`: two path segments split at the one `/` the first cannot hold. */
  lemma SegmentsInjective(a: string, b: string, c: string, d: string)
    requires '/' !in a && '/' !in c && a + "/" + b == c + "/" + d
    ensures a == c && b == d
  {
    var u := a + "/" + b;
    assert u[|a|] == '/';
    assert u[|c|] == '/';
    assert |a| == |c|;
    assert a == u[..|a|] && c == u[..|c|];
    assert b == u[|a| + 1..] && d == u[|c| + 1..];
  }

  /** The registered page address is where each provider's URL begins. */
  lemma UrlExtendsPage(p: Provider, r: Request)
    requires Url(p, r).Some?
    ensures Page(p) <= Url(p, r).value
  {
    var url := Url(p, r).value;
    match p
    case Instarem =>
      Extends(Page(p), "api/v1/public/transaction/computed-value?", url[|InstaremApi|..]);
    case CurrencyFair =>
      Extends(Page(p), "calculator/quicktrade-quote?", url[|CurrencyFairApi|..]);
    case TransferGo =>
      Extends(Page(p), "api/transfers/quote?", url[|TransferGoApi|..]);
    case XendPay =>
      Extends(Page(p), "rate/XP/", url[|XendPayApi|..]);
    case Wise =>
      Extends(Page(p), "rates/history?", url[|WiseApi|..]);
  }

  lemma Extends(k: string, x: string, y: string)
    ensures k <= k + x + y
    ensures (k + x + y)[|k + x|..] == y
  {
  }

  /**
   * The `except` branch of every API function: a failed fetch or decode is
   * the rate 0.  All but `wise_api` convert the value with `float()` inside
   * the `try`; a `wise` answer is taken to be a number.
   */
  function FailSoft(response: Option<real>): (rate: real)
    ensures response.None? ==> rate == 0.0
    ensures response.Some? ==> rate == response.value
  {
    response.GetOr(0.0)
  }

  /**
   * The HTTP client.  `answer(n, url)` is the decoded rate of the `n`-th
   * request of the session, or `None` when the request, the decoding or
   * the conversion fails; `calls` logs every URL fetched.
   */
  class Network {
    var calls: seq<string>
    const answer: (nat, string) -> Option<real>

    constructor (answer: (nat, string) -> Option<real>)
      ensures calls == [] && this.answer == answer
    {
      calls := [];
      this.answer := answer;
    }

    /** `requests.get(url, timeout=5)` followed by the decoding of the answer. */
    method Get(url: string) returns (response: Option<real>)
      modifies this
      ensures calls == old(calls) + [url]
      ensures response == answer(|old(calls)|, url)
    {
      response := answer(|calls|, url);
      calls := calls + [url];
    }
  }

  /** One API function: fetch the provider's URL, 0 on failure. */
  method Scrape(net: Network, p: Provider, r: Request) returns (rate: real)
    requires Url(p, r).Some?
    modifies net
    ensures net.calls == old(net.calls) + [Url(p, r).value]
    ensures rate == FailSoft(net.answer(|old(net.calls)|, Url(p, r).value))
  {
    var response := net.Get(Url(p, r).value);
    rate := FailSoft(response);
  }
}
