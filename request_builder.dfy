/**
 * The request that Tracker::track(QUrlQuery) hands to the network manager, as a value:
 * a POST carries the encoded query as its body, a GET carries it (with an optional cache
 * buster "z") in the URL. Each path raises a soft-limit warning above its size limit.
 */
module Requests {
  import opened Wrappers
  import opened Text
  import opened UrlEncoding
  import HitValidation

  /** QNetworkAccessManager::Operation. */
  datatype Operation =
    | UnknownOperation | HeadOperation | GetOperation | PutOperation | PostOperation
    | DeleteOperation | CustomOperation

  /** The operations that Tracker sends with. */
  predicate IsSendOperation(op: Operation) {
    op == PostOperation || op == GetOperation
  }

  const FormContentType: string := "application/x-www-form-urlencoded"

  /** Payload limits from the Measurement Protocol: bytes of a POST body, characters of a GET URL. */
  const PostLimit: nat := 8192
  const GetLimit: nat := 2000

  /** Bound of the cache buster: qrand() % 100000000. */
  const CacheBusterModulus: nat := 100_000_000

  /**
   * A request to the network manager: the operation, the URL, the User-Agent header, the
   * Content-Type header (POST only) and the body (POST only).
   */
  datatype Request = Request(op: Operation, url: Url, userAgent: string, contentType: Option<string>,
                             body: Option<string>)

  /** The POST request: the endpoint unchanged, form content type, the encoded query as body. */
  function PostRequest(endpoint: Url, userAgent: string, items: seq<QueryItem>): (r: Request)
    ensures r.op == PostOperation && r.url == endpoint && r.userAgent == userAgent
    ensures r.contentType == Some(FormContentType)
    ensures r.body.Some? && DecodeQuery(r.body.value) == Some(Utf8Items(items))
  {
    QueryRoundTrip(items);
    Request(PostOperation, endpoint, userAgent, Some(FormContentType), Some(EncodeQuery(items)))
  }

  /** The cache buster item: "z" with the decimal text of rand % 100000000. */
  function CacheBuster(rand: nat): (item: QueryItem)
    ensures item.0 == "z"
    ensures exists k :: 0 <= k < CacheBusterModulus && item.1 == Number(k)
  {
    ("z", Number(rand % CacheBusterModulus))
  }

  /** The items a GET sends: the query, then the cache buster when cache busting is on. */
  function GetItems(items: seq<QueryItem>, cacheBusting: bool, rand: nat): (r: seq<QueryItem>)
    ensures |r| >= |items| && r[..|items|] == items
    ensures !cacheBusting ==> r == items
    ensures cacheBusting ==> |r| == |items| + 1 && r[|items|] == CacheBuster(rand)
  {
    if cacheBusting then items + [CacheBuster(rand)] else items
  }

  /** The GET request: the endpoint with the items as its query, no content type and no body. */
  function GetRequest(endpoint: Url, userAgent: string, items: seq<QueryItem>, cacheBusting: bool,
                      rand: nat): (r: Request)
    ensures r.op == GetOperation && r.userAgent == userAgent && r.contentType.None? && r.body.None?
    ensures r.url.scheme == endpoint.scheme && r.url.hierarchy == endpoint.hierarchy
    ensures GetItems(items, cacheBusting, rand) != [] ==>
              r.url.query.Some? && DecodeQuery(r.url.query.value) == Some(Utf8Items(GetItems(items, cacheBusting, rand)))
  {
    Request(GetOperation, WithQuery(endpoint, GetItems(items, cacheBusting, rand)), userAgent, None, None)
  }

  /** The request of track(QUrlQuery) for one of the two send operations. */
  function BuildRequest(op: Operation, endpoint: Url, userAgent: string, items: seq<QueryItem>,
                        cacheBusting: bool, rand: nat): (r: Request)
    requires IsSendOperation(op)
    ensures r.op == op && r.userAgent == userAgent
    ensures op == PostOperation ==> r == PostRequest(endpoint, userAgent, items)
    ensures op == GetOperation ==> r == GetRequest(endpoint, userAgent, items, cacheBusting, rand)
  {
    if op == PostOperation then PostRequest(endpoint, userAgent, items)
    else GetRequest(endpoint, userAgent, items, cacheBusting, rand)
  }

  /** The qWarning of track: a POST body above 8192 bytes, or a GET URL above 2000 characters. */
  predicate Warns(r: Request) {
    match r.op
    case PostOperation => r.body.Some? && |r.body.value| > PostLimit
    case GetOperation => |UrlText(r.url)| > GetLimit
    case _ => false
  }

  // ---- properties ----

  /** The cache buster is a canonical decimal in 0..99999999, so it passes isInteger. */
  lemma CacheBusterIsInteger(rand: nat)
    ensures HitValidation.IsInteger(CacheBuster(rand).1)
    ensures |CacheBuster(rand).1| <= 8
  {
    var k := rand % CacheBusterModulus;
    assert InInt64(k);
    ParseNumber(k);
    assert Pow10(8) == CacheBusterModulus;
    NatToDecimalLength(k, 8);
  }

  /** The encoded query is at least as long as the encoded form of any one item. */
  lemma {:induction false} EncodedQueryHoldsEachPair(items: seq<QueryItem>, i: nat)
    requires i < |items|
    ensures |EncodeQuery(items)| >= |EncodePair(items[i])|
    decreases |items|
  {
    if i > 0 {
      EncodedQueryHoldsEachPair(items[1..], i - 1);
      assert items[1..][i - 1] == items[i];
    }
  }

  /** An encoded pair is at least as long as its raw value. */
  lemma EncodedPairLength(item: QueryItem)
    ensures |EncodePair(item)| > |item.1|
  {
  }

  /** A POST whose items hold a value of 8192 characters or more always warns. */
  lemma LongPostValueWarns(endpoint: Url, userAgent: string, items: seq<QueryItem>, i: nat)
    requires i < |items| && |items[i].1| >= PostLimit
    ensures Warns(PostRequest(endpoint, userAgent, items))
  {
    EncodedQueryHoldsEachPair(items, i);
    EncodedPairLength(items[i]);
  }

  /** A GET whose items hold a value of 2000 characters or more always warns. */
  lemma LongGetValueWarns(endpoint: Url, userAgent: string, items: seq<QueryItem>, cacheBusting: bool,
                          rand: nat, i: nat)
    requires i < |items| && |items[i].1| >= GetLimit
    ensures Warns(GetRequest(endpoint, userAgent, items, cacheBusting, rand))
  {
    var all := GetItems(items, cacheBusting, rand);
    assert all[i] == items[i];
    EncodedQueryHoldsEachPair(all, i);
    EncodedPairLength(all[i]);
    var u := GetRequest(endpoint, userAgent, items, cacheBusting, rand).url;
    assert u.query == Some(EncodeQuery(all));
  }

  /** Without a query and with cache busting off, a GET goes to the endpoint itself. */
  lemma EmptyGetIsEndpoint(endpoint: Url, userAgent: string, rand: nat)
    requires endpoint.query.None?
    ensures GetRequest(endpoint, userAgent, [], false, rand).url == endpoint
  {
  }
}
