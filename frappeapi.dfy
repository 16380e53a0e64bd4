/** The Frappe REST client (api/frappe.py): page-size normalisation, the
    token header, the dry-run gate on writes, and the paging loop that
    reads a whole document list. The network is a log of the requests the
    client sends, and the server's answers are given as parameters. */
module FrappeApi {
  import opened Base
  import opened Text

  /** A decoded JSON document (numbers other than integers are not modelled). */
  datatype Json =
    | JNull
    | JBool(b: bool)
    | JInt(i: int)
    | JStr(s: string)
    | JList(items: seq<Json>)
    | JObject(fields: Dict<string, Json>)

  /** Python truthiness of a decoded document. */
  predicate Truthy(j: Json) {
    match j
    case JNull => false
    case JBool(b) => b
    case JInt(i) => i != 0
    case JStr(s) => s != ""
    case JList(xs) => xs != []
    case JObject(fs) => fs != []
  }

  /** What the configuration holds under `limit_page_length`. A `bool` is
      an `int` to Python's `isinstance`. */
  datatype LimitInput = LimitMissing | LimitInt(n: int) | LimitBool(b: bool) | LimitOther

  /** The number a limit stands for in arithmetic. */
  function Amount(l: LimitInput): int {
    match l
    case LimitInt(n) => n
    case LimitBool(b) => if b then 1 else 0
    case _ => 0
  }

  /** How a limit is written into a URL by an f-string. */
  function LimitText(l: LimitInput): string {
    match l
    case LimitBool(b) => if b then "True" else "False"
    case _ => IntToString(Amount(l))
  }

  /** The constructor's normalisation: a missing value, one that is not an
      integer, or one below 1 becomes 20; anything else is kept as given. */
  function NormalizeLimit(x: LimitInput): (r: LimitInput)
    ensures Amount(r) >= 1 && (r.LimitInt? || r == LimitBool(true))
    ensures (x.LimitInt? || x.LimitBool?) && Amount(x) >= 1 ==> r == x
    ensures !((x.LimitInt? || x.LimitBool?) && Amount(x) >= 1) ==> r == LimitInt(20)
  {
    match x
    case LimitMissing => LimitInt(20)
    case LimitInt(n) => if n < 1 then LimitInt(20) else x
    case LimitBool(b) => if b then x else LimitInt(20)
    case LimitOther => LimitInt(20)
  }

  /** The part of the configuration the client reads. */
  datatype ClientConfig = ClientConfig(limit: LimitInput, apiKey: Option<string>, apiSecret: Option<string>)

  /** `_setup_auth` on the initial headers: the token header is set exactly
      when both the key and the secret are configured. */
  function AuthHeaders(cfg: ClientConfig): (r: Dict<string, string>)
    ensures Get(r, "Accept") == Some("application/json")
    ensures Has(r, "Authorization") <==> cfg.apiKey.Some? && cfg.apiSecret.Some?
    ensures cfg.apiKey.Some? && cfg.apiSecret.Some? ==>
      Get(r, "Authorization") == Some("token " + cfg.apiKey.value + ":" + cfg.apiSecret.value)
    ensures forall k :: k != "Accept" && k != "Authorization" ==> !Has(r, k)
  {
    var base := [("Accept", "application/json")];
    match (cfg.apiKey, cfg.apiSecret)
    case (Some(key), Some(secret)) =>
      assert "Authorization" != "Accept";
      Put(base, "Authorization", "token " + key + ":" + secret)
    case _ =>
      assert "Authorization" != "Accept";
      base
  }

  /** A request that left the client. */
  datatype Request = Request(verb: string, url: Url, body: Option<Json>, params: Option<Json>,
                             headers: Dict<string, string>)

  /** What one page answer contributes to `get_all_data`: its `data` list,
      nothing (a failed request, a falsy answer, no list under `data`), or
      an `AttributeError` when a truthy answer is not an object. */
  datatype Page = Items(items: seq<Json>) | Broken

  function PageOf(res: Option<Json>): Page {
    match res
    case None => Items([])
    case Some(j) =>
      if !Truthy(j) then Items([])
      else match j
        case JObject(fs) =>
          var d := Get(fs, "data");
          if d.Some? && d.value.JList? then Items(d.value.items) else Items([])
        case _ => Broken
  }

  /** The server's answer to the `k`-th page request; requests past the
      given answers fail. */
  function Answer(answers: seq<Option<Json>>, k: nat): Option<Json> {
    if k < |answers| then answers[k] else None
  }

  /** Page `k` held exactly `size` items. */
  predicate Full(answers: seq<Option<Json>>, k: nat, size: int) {
    PageOf(Answer(answers, k)).Items? && |PageOf(Answer(answers, k)).items| == size
  }

  /** The items of pages 0 to n - 1, in request order. */
  function Gathered(answers: seq<Option<Json>>, n: nat): seq<Json> {
    if n == 0 then []
    else Gathered(answers, n - 1) + (match PageOf(Answer(answers, n - 1)) case Items(xs) => xs case Broken => [])
  }

  /** The offset of the `k`-th page: `limit_start` grows by the page size
      at each request. */
  function Offset(k: nat, size: int): int {
    if k == 0 then 0 else Offset(k - 1, size) + size
  }

  /** The `k`-th page starts at `k * size`: offsets 0, L, 2L, ... */
  lemma {:induction false} OffsetIsMultiple(k: nat, size: int)
    ensures Offset(k, size) == k * size
  {
    if k > 0 {
      OffsetIsMultiple(k - 1, size);
    }
  }

  /** A URL the client requests: one given whole, or a page of a list,
      held as its parts. */
  datatype Url = Url(s: string) | PageUrl(endpoint: string, limit: LimitInput, start: int)

  /** The text of a URL; a page adds its size, offset and field selection
      to the endpoint's query string. */
  function UrlText(u: Url): string {
    match u
    case Url(s) => s
    case PageUrl(endpoint, limit, start) =>
      endpoint + (if Contains(endpoint, "?") then "&" else "?")
        + "limit=" + LimitText(limit) + "&limit_start=" + IntToString(start) + "&fields=[\"*\"]"
  }

  /** The URLs of the first `n` pages. */
  function PageUrls(endpoint: string, limit: LimitInput, n: nat): (r: seq<Url>)
    ensures |r| == n
  {
    if n == 0 then [] else PageUrls(endpoint, limit, n - 1) + [PageUrl(endpoint, limit, Offset(n - 1, Amount(limit)))]
  }

  /** Page `k` is requested at offset `k * L`. */
  lemma {:induction false} PageUrlsAt(endpoint: string, limit: LimitInput, n: nat, k: nat)
    requires k < n
    ensures PageUrls(endpoint, limit, n)[k] == PageUrl(endpoint, limit, k * Amount(limit))
  {
    if k < n - 1 {
      PageUrlsAt(endpoint, limit, n - 1, k);
    } else {
      OffsetIsMultiple(k, Amount(limit));
    }
  }

  /** A `GET` of each URL, in order. */
  function Gets(urls: seq<Url>, params: Option<Json>, headers: Dict<string, string>): (r: seq<Request>)
    ensures |r| == |urls|
    ensures forall j :: 0 <= j < |urls| ==> r[j] == Request("GET", urls[j], None, params, headers)
  {
    seq(|urls|, j requires 0 <= j < |urls| => Request("GET", urls[j], None, params, headers))
  }

  /** One more GET at the end of the log. */
  lemma {:induction false} GetsSnoc(prior: seq<Request>, urls: seq<Url>, u: Url, params: Option<Json>, headers: Dict<string, string>)
    ensures prior + Gets(urls + [u], params, headers) == prior + Gets(urls, params, headers) + [Request("GET", u, None, params, headers)]
  {
    assert Gets(urls + [u], params, headers) == Gets(urls, params, headers) + [Request("GET", u, None, params, headers)];
  }

  /** One more page that is not broken: its items join the gathered ones,
      the offset grows by the page size, and the loop goes on exactly when
      the page is full, which only an answered request can be. */
  lemma {:induction false} PageStep(answers: seq<Option<Json>>, n: nat, size: int, data: seq<Json>, start: int)
    requires data == Gathered(answers, n) && start == Offset(n, size)
    requires PageOf(Answer(answers, n)).Items?
    ensures Gathered(answers, n + 1) == data + PageOf(Answer(answers, n)).items
    ensures Offset(n + 1, size) == start + size
    ensures |data| == start ==> (|data + PageOf(Answer(answers, n)).items| == start + size <==> Full(answers, n, size))
    ensures Full(answers, n, size) && size >= 1 ==> n < |answers|
  {
  }

  /** The state of the paging loop after the pages `urls` were read: every
      page but the last was full, `data` holds their items, `start` is the
      next offset, and the loop goes on exactly while the last page was full. */
  ghost predicate Paging(answers: seq<Option<Json>>, endpoint: string, lim: LimitInput,
                         urls: seq<Url>, data: seq<Json>, start: int)
  {
    var size := Amount(lim);
    && urls == PageUrls(endpoint, lim, |urls|)
    && (forall k :: 0 <= k < |urls| - 1 ==> Full(answers, k, size))
    && data == Gathered(answers, |urls|)
    && start == Offset(|urls|, size)
    && (|urls| == 0 ==> data == [] && start == 0)
    && (|urls| > 0 ==> (|data| == start <==> Full(answers, |urls| - 1, size)))
    && (|urls| > 0 && Full(answers, |urls| - 1, size) ==> |urls| <= |answers|)
    && |urls| <= |answers| + 1
    && (|urls| > 0 ==> PageOf(Answer(answers, |urls| - 1)).Items?)
  }

  /** A page that is not broken, read while the loop goes on, keeps the
      paging state. */
  lemma {:induction false} PagingStep(answers: seq<Option<Json>>, endpoint: string, lim: LimitInput,
                                      urls: seq<Url>, data: seq<Json>, start: int)
    requires Amount(lim) >= 1
    requires Paging(answers, endpoint, lim, urls, data, start) && |data| == start
    requires PageOf(Answer(answers, |urls|)).Items?
    ensures |urls| <= |answers|
    ensures Paging(answers, endpoint, lim, urls + [PageUrl(endpoint, lim, start)],
                   data + PageOf(Answer(answers, |urls|)).items, start + Amount(lim))
  {
    PageStep(answers, |urls|, Amount(lim), data, start);
  }

  /** `FrappeAPI` */
  class FrappeClient {
    var headers: Dict<string, string>
    var limit: LimitInput
    var dryRun: bool
    var sent: seq<Request>

    ghost predicate Valid()
      reads this
    {
      Amount(limit) >= 1
    }

    /** `__init__` */
    constructor (cfg: ClientConfig, dryRun: bool)
      ensures Valid()
      ensures headers == AuthHeaders(cfg) && limit == NormalizeLimit(cfg.limit)
      ensures this.dryRun == dryRun && sent == []
    {
      headers := AuthHeaders(cfg);
      limit := NormalizeLimit(cfg.limit);
      this.dryRun := dryRun;
      sent := [];
    }

    /** `send_data`. `response` is the server's decoded answer, None when
        the request or the status check raises. In dry run, or for a verb
        other than POST and PUT, nothing is sent and None is returned. The
        request carries the client's headers as they are: the copy with
        `Content-Type` is built but not passed. */
    method SendData(verb: string, endpoint: string, data: Json, response: Option<Json>) returns (r: Option<Json>)
      modifies this
      ensures headers == old(headers) && limit == old(limit) && dryRun == old(dryRun)
      ensures dryRun || (verb != "POST" && verb != "PUT") ==> r.None? && sent == old(sent)
      ensures !dryRun && (verb == "POST" || verb == "PUT") ==>
        r == response && sent == old(sent) + [Request(verb, Url(endpoint), Some(data), None, headers)]
    {
      if dryRun {
        return None;
      }
      if verb == "POST" || verb == "PUT" {
        sent := sent + [Request(verb, Url(endpoint), Some(data), None, headers)];
        return response;
      }
      return None;
    }

    /** `get_data`: one GET; None when it raises. */
    method GetData(url: Url, params: Option<Json>, response: Option<Json>) returns (r: Option<Json>)
      modifies this
      ensures headers == old(headers) && limit == old(limit) && dryRun == old(dryRun)
      ensures sent == old(sent) + [Request("GET", url, None, params, headers)]
      ensures r == response
    {
      sent := sent + [Request("GET", url, None, params, headers)];
      r := response;
    }

    /** `get_all_data`: pages are requested at offsets 0, L, 2L, ... while
        every page so far held exactly L items; the result is their items
        in request order. None when an answer is truthy but not an object
        (the call raises). `answers[k]` answers the k-th request. */
    method GetAllData(endpoint: string, params: Option<Json>, answers: seq<Option<Json>>)
      returns (result: Option<seq<Json>>, urls: seq<Url>)
      requires Valid()
      modifies this
      ensures Valid() && headers == old(headers) && limit == old(limit) && dryRun == old(dryRun)
      ensures sent == old(sent) + Gets(urls, params, headers)
      ensures 1 <= |urls| <= |answers| + 1
      ensures urls == PageUrls(endpoint, limit, |urls|)
      ensures forall k :: 0 <= k < |urls| - 1 ==> Full(answers, k, Amount(limit))
      ensures !Full(answers, |urls| - 1, Amount(limit))
      ensures result.None? <==> PageOf(Answer(answers, |urls| - 1)).Broken?
      ensures result.Some? ==> result.value == Gathered(answers, |urls|)
    {
      var lim := limit;
      var hdrs := headers;
      var sent0 := sent;
      var size := Amount(lim);
      var start := 0;
      var data: seq<Json> := [];
      urls := [];
      while |data| == start
        invariant Valid() && headers == hdrs && limit == lim && dryRun == old(dryRun)
        invariant sent == sent0 + Gets(urls, params, hdrs)
        invariant Paging(answers, endpoint, lim, urls, data, start)
        decreases |answers| + 1 - |urls|
      {
        var url := PageUrl(endpoint, lim, start);
        var res := GetData(url, params, Answer(answers, |urls|));
        var page := PageOf(res);
        GetsSnoc(sent0, urls, url, params, hdrs);
        if page.Broken? {
          urls := urls + [url];
          return None, urls;
        }
        PagingStep(answers, endpoint, lim, urls, data, start);
        data := data + page.items;
        urls := urls + [url];
        start := start + size;
      }
      result := Some(data);
    }
  }
}
