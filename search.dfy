/**
 * `search_repositories`: one GET on the search endpoint, turned into a list
 * of raw repository objects. The HTTP call is the oracle `api`; what remains
 * is the decision which response yields which items, which notice is logged,
 * and which response makes an exception escape.
 */
module Search {
  import opened Json

  /** A repository object exactly as the search endpoint returns it. */
  type RawRepo = map<string, Value>

  /** The query parameters of the GET: `q`, `sort`, `order`, `per_page`. */
  datatype Request = Request(q: string, sort: string, order: string, perPage: int)

  /** The decoded body, reduced to its `items` member (absent or a list of objects). */
  datatype Body = Unparsable | Parsed(items: Option<seq<RawRepo>>)

  /**
   * What `requests.get` gives back: no response at all (it raised a
   * RequestException, e.g. a connection error or a timeout), or a status,
   * the optional `X-RateLimit-Remaining` header and the body.
   */
  datatype Response = NoReply | Reply(status: int, remaining: Option<string>, body: Body)

  /** The remote API: the response a request gets. */
  type Api = Request -> Response

  /** The log line a search ends with, if any. */
  datatype Notice =
    | Quiet                      // success, plenty of calls left
    | LowRemaining(calls: int)   // success with fewer than ten calls left
    | RateLimitExceeded          // HTTP 403
    | SearchError                // any other request failure

  datatype Found = Found(items: seq<RawRepo>, notice: Notice)

  /** Below this many remaining calls the search warns. */
  const LowCallsThreshold := 10

  /** `raise_for_status` raises for client errors (4xx) and server errors (5xx). */
  predicate RaisesForStatus(status: int) {
    400 <= status < 600
  }

  /** The response reached `data.get("items", [])`: neither request nor decoding failed. */
  predicate Delivered(resp: Response) {
    resp.Reply? && !RaisesForStatus(resp.status) && resp.body.Parsed?
  }

  /** `if remaining:` — the header is present and not the empty string. */
  predicate HeaderGiven(resp: Response)
    requires resp.Reply?
  {
    resp.remaining.Some? && resp.remaining.value != ""
  }

  // ---------------------------------------------------------------------------
  // int() on the header value

  predicate IsDigit(c: char) { '0' <= c <= '9' }

  predicate AllDigits(s: string) {
    forall i :: 0 <= i < |s| ==> IsDigit(s[i])
  }

  function DigitValue(c: char): nat
    requires IsDigit(c)
  {
    (c as int) - ('0' as int)
  }

  /** The number a string of decimal digits denotes, most significant first. */
  function DigitsValue(s: string): nat
    requires AllDigits(s)
  {
    if s == [] then 0 else DigitsValue(s[..|s| - 1]) * 10 + DigitValue(s[|s| - 1])
  }

  /** A decimal literal: an optional sign followed by at least one digit. */
  predicate IsIntLiteral(s: string) {
    if |s| > 0 && (s[0] == '+' || s[0] == '-') then |s| > 1 && AllDigits(s[1..])
    else |s| > 0 && AllDigits(s)
  }

  /** `int(s)`: the value of a decimal literal; `None` where Python raises ValueError. */
  function ParseInt(s: string): (r: Option<int>)
    ensures r.Some? <==> IsIntLiteral(s)
    ensures r.Some? && s[0] == '-' ==> r.value <= 0
    ensures r.Some? && s[0] != '-' ==> r.value >= 0
  {
    if |s| > 0 && (s[0] == '+' || s[0] == '-') then
      if |s| > 1 && AllDigits(s[1..]) then
        Some(if s[0] == '-' then -(DigitsValue(s[1..]) as int) else DigitsValue(s[1..]))
      else None
    else if |s| > 0 && AllDigits(s) then Some(DigitsValue(s))
    else None
  }

  /** The decimal rendering of a count, as the server writes the header. */
  function Decimal(n: nat): (s: string)
    ensures |s| > 0 && AllDigits(s)
  {
    if n < 10 then [('0' as int + n) as char]
    else Decimal(n / 10) + [('0' as int + n % 10) as char]
  }

  lemma {:induction false} DigitsOfDecimal(n: nat)
    ensures DigitsValue(Decimal(n)) == n
  {
    var s := Decimal(n);
    if n >= 10 {
      DigitsOfDecimal(n / 10);
      assert s[..|s| - 1] == Decimal(n / 10);
    }
  }

  /** Reading back a rendered count gives the count. */
  lemma ParseDecimal(n: nat)
    ensures ParseInt(Decimal(n)) == Some(n)
  {
    DigitsOfDecimal(n);
  }

  /** `k` zeros: the padding `int()` skips before the significant digits. */
  function Zeros(k: nat): (s: string)
    ensures |s| == k && AllDigits(s)
  {
    if k == 0 then "" else Zeros(k - 1) + "0"
  }

  lemma {:induction false} ZerosValue(k: nat)
    ensures DigitsValue(Zeros(k)) == 0
  {
    if k > 0 {
      assert Zeros(k)[..k - 1] == Zeros(k - 1);
      ZerosValue(k - 1);
    }
  }

  /** Leading zeros do not change the value of a digit string. */
  lemma {:induction false} LeadingZeros(k: nat, d: string)
    requires AllDigits(d)
    ensures AllDigits(Zeros(k) + d) && DigitsValue(Zeros(k) + d) == DigitsValue(d)
    decreases |d|
  {
    var s := Zeros(k) + d;
    assert AllDigits(s) by {
      forall i | 0 <= i < |s| ensures IsDigit(s[i]) {
        if i >= k { assert s[i] == d[i - k]; }
      }
    }
    if d == [] {
      assert s == Zeros(k);
      ZerosValue(k);
    } else {
      var init := d[..|d| - 1];
      assert s[..|s| - 1] == Zeros(k) + init;
      LeadingZeros(k, init);
    }
  }

  /** A signed digit string parses to its digits' value, negated under a minus sign. */
  lemma ParseSigned(sign: string, d: string)
    requires sign == "" || sign == "+" || sign == "-"
    requires |d| > 0 && AllDigits(d)
    ensures ParseInt(sign + d) == Some(if sign == "-" then -(DigitsValue(d) as int) else DigitsValue(d) as int)
  {
    assert IsDigit(d[0]);
    if sign == "" {
      assert sign + d == d;
    } else {
      assert (sign + d)[0] == sign[0] && (sign + d)[1..] == d;
    }
  }

  /** A zero-padded rendering of `n` is a digit string denoting `n`. */
  lemma PaddedDecimal(k: nat, n: nat)
    ensures |Zeros(k) + Decimal(n)| > 0 && AllDigits(Zeros(k) + Decimal(n))
    ensures DigitsValue(Zeros(k) + Decimal(n)) == n
  {
    DigitsOfDecimal(n);
    LeadingZeros(k, Decimal(n));
  }

  /** `int(sign + "0" * k + str(n))` is `n`, negated under a minus sign. */
  lemma ParseIntValue(sign: string, k: nat, n: nat)
    requires sign == "" || sign == "+" || sign == "-"
    ensures ParseInt(sign + Zeros(k) + Decimal(n)) == Some(if sign == "-" then -(n as int) else n as int)
  {
    PaddedDecimal(k, n);
    ParseSigned(sign, Zeros(k) + Decimal(n));
    assert sign + Zeros(k) + Decimal(n) == sign + (Zeros(k) + Decimal(n));
  }

  // ---------------------------------------------------------------------------
  // The outcome logic

  /** The request `search_repositories(query, sort, per_page)` sends. */
  function SearchRequest(query: string, sort: string, perPage: int): (req: Request)
    ensures req.q == query && req.sort == sort && req.perPage == perPage
    ensures req.order == "desc"
  {
    Request(query, sort, "desc", perPage)
  }

  /** What `search_repositories` makes of a response. */
  function Outcome(resp: Response): (r: Result<Found>)
    // every failure of the request or of decoding is "no results"
    ensures !Delivered(resp) ==> r.Ok? && r.value.items == []
    ensures !Delivered(resp) ==>
      r.value.notice == (if resp.Reply? && resp.status == 403 then RateLimitExceeded else SearchError)
    // only a header that int() rejects lets an exception out
    ensures r.Raised? <==>
      Delivered(resp) && HeaderGiven(resp) && !IsIntLiteral(resp.remaining.value)
    ensures r.Raised? ==> r.error == ValueError(resp.remaining.value)
    // a delivered body yields its items, or [] without them
    ensures Delivered(resp) && r.Ok? ==>
      r.value.items == (if resp.body.items.Some? then resp.body.items.value else [])
    // the warning fires iff the header is given and parses below the threshold
    ensures Delivered(resp) && r.Ok? ==>
      (r.value.notice.LowRemaining? <==>
         HeaderGiven(resp) && ParseInt(resp.remaining.value).value < LowCallsThreshold)
    ensures Delivered(resp) && r.Ok? && r.value.notice.LowRemaining? ==>
      r.value.notice.calls == ParseInt(resp.remaining.value).value
    ensures Delivered(resp) && r.Ok? ==> r.value.notice.Quiet? || r.value.notice.LowRemaining?
  {
    match resp
    case NoReply => Ok(Found([], SearchError))
    case Reply(status, remaining, body) =>
      if RaisesForStatus(status) then
        Ok(Found([], if status == 403 then RateLimitExceeded else SearchError))
      else
        match body
        case Unparsable => Ok(Found([], SearchError))
        case Parsed(items) =>
          var repos := if items.Some? then items.value else [];
          if remaining.Some? && remaining.value != "" then
            match ParseInt(remaining.value)
            case None => Raised(ValueError(remaining.value))
            case Some(n) => Ok(Found(repos, if n < LowCallsThreshold then LowRemaining(n) else Quiet))
          else Ok(Found(repos, Quiet))
  }

  /** `search_repositories(query, sort, per_page)` against the API `api`. */
  function SearchRepositories(api: Api, query: string, sort: string, perPage: int): (r: Result<Found>)
    // one GET with the query, the sort key, descending order and the page size
    ensures var resp := api(Request(query, sort, "desc", perPage));
      && (r.Raised? <==> Delivered(resp) && HeaderGiven(resp) && !IsIntLiteral(resp.remaining.value))
      && (r.Raised? ==> r.error == ValueError(resp.remaining.value))
      && (r.Ok? ==> r.value.items == (if Delivered(resp) && resp.body.items.Some? then resp.body.items.value else []))
  {
    Outcome(api(SearchRequest(query, sort, perPage)))
  }

  /** A rendered remaining-calls header warns exactly when the count is below ten. */
  lemma WarnsOnLowCount(status: int, n: nat, items: Option<seq<RawRepo>>)
    requires !RaisesForStatus(status)
    ensures var r := Outcome(Reply(status, Some(Decimal(n)), Parsed(items)));
      r.Ok? && (r.value.notice.LowRemaining? <==> n < LowCallsThreshold)
  {
    ParseDecimal(n);
  }
}
