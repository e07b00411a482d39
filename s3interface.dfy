/** The S3 access service: a bounded retry wrapper around the transport, a
    paginated bucket listing that is all-or-nothing and drops zero-size
    keys, a ranged read with an exact-length check, and a gzip sniffer.

    Each operation is specified by a function of the transport script and
    the number of calls already made; the methods of S3Service are proved
    to compute exactly that function and to make exactly the calls it
    accounts for. */
module S3Interface {
  import opened S3Types
  import opened RestfulService

  // ---------------------------------------------------------------------
  // Retry wrapper
  // ---------------------------------------------------------------------

  /** The response a retrying request ends with and how many transport
      calls it used. */
  datatype Attempt = Attempt(response: Response, used: nat)

  /** getResponseWithRetries against `s`, whose next call is number `start`,
      with a budget of `n` attempts: the first successful response, or the
      response of the last attempt, or the default failure when the budget
      is zero. */
  function Retry(s: Script, start: nat, n: nat): (a: Attempt)
    ensures n == 0 ==> a == Attempt(DefaultResponse, 0)
    ensures n >= 1 ==> 1 <= a.used <= n && a.response == s.At(start + a.used - 1)
    ensures !a.response.IsSuccess() ==> a.used == n
    decreases n
  {
    if n == 0 then Attempt(DefaultResponse, 0)
    else
      var r := s.At(start);
      if r.IsSuccess() || n == 1 then Attempt(r, 1)
      else
        var rest := Retry(s, start + 1, n - 1);
        Attempt(rest.response, rest.used + 1)
  }

  /** The wrapper stops at the first success: every attempt before the one
      it returns failed. */
  lemma {:induction false} RetryStopsAtFirstSuccess(s: Script, start: nat, n: nat, k: nat)
    requires start <= k < start + Retry(s, start, n).used - 1
    ensures !s.At(k).IsSuccess()
    decreases n
  {
    if k > start {
      RetryStopsAtFirstSuccess(s, start + 1, n - 1, k);
    }
  }

  /** When the attempts from `start` on fail up to, but not including, the
      one at `start + k`, and that one succeeds, the wrapper returns it after
      exactly k + 1 calls. */
  lemma RetryFirstSuccess(s: Script, start: nat, n: nat, k: nat)
    requires k < n
    requires s.At(start + k).IsSuccess()
    requires forall j: nat :: start <= j < start + k ==> !s.At(j).IsSuccess()
    ensures Retry(s, start, n) == Attempt(s.At(start + k), k + 1)
  {
    var a := Retry(s, start, n);
    if a.used > k + 1 {
      RetryStopsAtFirstSuccess(s, start, n, start + k);
      assert false;
    }
  }

  /** When every one of the n attempts fails, the wrapper makes all n calls
      and returns the last response. */
  lemma RetryAllFail(s: Script, start: nat, n: nat)
    requires n >= 1
    requires forall j: nat :: start <= j < start + n ==> !s.At(j).IsSuccess()
    ensures Retry(s, start, n) == Attempt(s.At(start + n - 1), n)
  {
  }

  /** Against a transport that always gives the same response, the wrapper
      returns it; it makes one call if that response is a success and uses
      up the whole budget otherwise. */
  lemma RetryConstant(r: Response, start: nat, n: nat)
    ensures Retry(Always(r), start, n) ==
      if n == 0 then Attempt(DefaultResponse, 0)
      else Attempt(r, if r.IsSuccess() then 1 else n)
  {
  }

  // ---------------------------------------------------------------------
  // Listing
  // ---------------------------------------------------------------------

  /** The entries of a page whose size is not zero, in page order. */
  function NonZero(cs: seq<BucketContent>): (r: seq<BucketContent>)
    ensures |r| <= |cs|
    ensures forall i :: 0 <= i < |r| ==> r[i].size > 0
  {
    if cs == [] then []
    else if cs[0].size > 0 then [cs[0]] + NonZero(cs[1..])
    else NonZero(cs[1..])
  }

  /** The filter keeps exactly the entries of non-zero size: an entry is in
      the result if and only if it is in the page and its size is not zero. */
  lemma {:induction false} NonZeroMembers(cs: seq<BucketContent>, c: BucketContent)
    ensures c in NonZero(cs) <==> c in cs && c.size > 0
  {
    if cs != [] {
      NonZeroMembers(cs[1..], c);
      assert c in cs <==> c == cs[0] || c in cs[1..];
    }
  }

  /** Filtering a concatenation filters each part. */
  lemma {:induction false} NonZeroAppend(a: seq<BucketContent>, b: seq<BucketContent>)
    ensures NonZero(a + b) == NonZero(a) + NonZero(b)
  {
    if a == [] {
      assert a + b == b;
    } else {
      assert (a + b)[0] == a[0];
      assert (a + b)[1..] == a[1..] + b;
      NonZeroAppend(a[1..], b);
      if a[0].size > 0 {
        assert NonZero(a + b) == [a[0]] + NonZero(a[1..] + b);
        assert NonZero(a) == [a[0]] + NonZero(a[1..]);
      } else {
        assert NonZero(a + b) == NonZero(a[1..] + b);
        assert NonZero(a) == NonZero(a[1..]);
      }
    }
  }

  /** Filtering keeps a page with no zero-size entry unchanged. */
  lemma {:induction false} NonZeroKeepsPositive(cs: seq<BucketContent>)
    requires forall i :: 0 <= i < |cs| ==> cs[i].size > 0
    ensures NonZero(cs) == cs
  {
    if cs != [] {
      NonZeroKeepsPositive(cs[1..]);
    }
  }

  /** Filtering empties a page of zero-size entries only. */
  lemma {:induction false} NonZeroDropsZeros(cs: seq<BucketContent>)
    requires forall i :: 0 <= i < |cs| ==> cs[i].size == 0
    ensures NonZero(cs) == []
  {
    if cs != [] {
      NonZeroDropsZeros(cs[1..]);
    }
  }

  /** A response from which the listing can go on: a successful response
      whose payload is a ListBucketResult document. */
  predicate IsListingResponse(r: Response): (b: bool)
  {
    r.IsSuccess() && r.document.ListBucketDocument?
  }

  /** A response that would make the listing ask for another page. */
  predicate IsTruncatedListing(r: Response) {
    IsListingResponse(r) && r.document.isTruncated
  }

  /** The script ends pagination: the response it repeats forever is not a
      truncated listing page, so only its one-shot responses can ask for
      more pages. */
  predicate PaginationEnds(s: Script) {
    !IsTruncatedListing(s.repeatedly)
  }

  /** The outcome of a listing: all the non-zero entries, or None when any
      page failed; and the number of transport calls made. */
  datatype Listing = Listing(contents: Option<seq<BucketContent>>, used: nat)

  /** The outcome of the pages before `rest` (whose entries are `kept` and
      which used `used` calls) followed by the listing `rest`. */
  function Join(kept: seq<BucketContent>, used: nat, rest: Listing): (l: Listing)
  {
    Listing(if rest.contents.Some? then Some(kept + rest.contents.value) else None, used + rest.used)
  }

  lemma JoinNothing(l: Listing)
    ensures Join([], 0, l) == l
  {
    if l.contents.Some? {
      assert [] + l.contents.value == l.contents.value;
    }
  }

  lemma JoinJoin(a: seq<BucketContent>, m: nat, b: seq<BucketContent>, n: nat, l: Listing)
    ensures Join(a, m, Join(b, n, l)) == Join(a + b, m + n, l)
  {
    if l.contents.Some? {
      assert a + (b + l.contents.value) == (a + b) + l.contents.value;
    }
  }

  /** The listing of the pages requested from call number `start` on, each
      page through the retry wrapper with budget `retries`: a page that is not
      a listing aborts everything; a listing page contributes its non-zero
      entries and, when truncated, is followed by the next page. */
  function ListFrom(s: Script, start: nat, retries: nat): (l: Listing)
    requires PaginationEnds(s)
    ensures retries == 0 ==> l == Listing(None, 0)
    ensures retries >= 1 ==> l.used >= 1
    decreases |s.once| - start
  {
    var a := Retry(s, start, retries);
    if !IsListingResponse(a.response) then Listing(None, a.used)
    else
      var page := a.response.document;
      if !page.isTruncated then Listing(Some(NonZero(page.contents)), a.used)
      else
        assert start + a.used - 1 < |s.once|;
        Join(NonZero(page.contents), a.used, ListFrom(s, start + a.used, retries))
  }

  /** One step of ListFrom: the first page decides whether the listing
      stops, fails, or goes on from the call after that page. */
  lemma ListFromStep(s: Script, start: nat, retries: nat)
    requires PaginationEnds(s)
    ensures var a := Retry(s, start, retries);
      IsTruncatedListing(a.response) ==>
        start + a.used <= |s.once| &&
        ListFrom(s, start, retries) ==
        Join(NonZero(a.response.document.contents), a.used, ListFrom(s, start + a.used, retries))
    ensures var a := Retry(s, start, retries);
      IsListingResponse(a.response) && !a.response.document.isTruncated ==>
        ListFrom(s, start, retries) == Listing(Some(NonZero(a.response.document.contents)), a.used)
    ensures var a := Retry(s, start, retries);
      !IsListingResponse(a.response) ==> ListFrom(s, start, retries) == Listing(None, a.used)
  {
  }

  /** The listing loop's invariant, carried over one page: `total` is the
      listing from call `start`, and the pages up to call `done` gave `kept`. */
  lemma ListingLoopStep(s: Script, start: nat, done: nat, retries: nat,
                        kept: seq<BucketContent>, total: Listing)
    requires PaginationEnds(s) && start <= done
    requires total == Join(kept, done - start, ListFrom(s, done, retries))
    ensures var a := Retry(s, done, retries);
      !IsListingResponse(a.response) ==> total == Listing(None, done + a.used - start)
    ensures var a := Retry(s, done, retries);
      IsListingResponse(a.response) && !a.response.document.isTruncated ==>
        total == Listing(Some(kept + NonZero(a.response.document.contents)), done + a.used - start)
    ensures var a := Retry(s, done, retries);
      IsTruncatedListing(a.response) ==>
        done + a.used <= |s.once| &&
        total == Join(kept + NonZero(a.response.document.contents), done + a.used - start,
                      ListFrom(s, done + a.used, retries))
  {
    var a := Retry(s, done, retries);
    ListFromStep(s, done, retries);
    if IsTruncatedListing(a.response) {
      JoinJoin(kept, done - start, NonZero(a.response.document.contents), a.used,
               ListFrom(s, done + a.used, retries));
    }
  }

  /** Entry `c` was on a listing page the transport answered with a call
      numbered from `start` up to, but not including, `start + used`. */
  predicate ServedBetween(s: Script, start: nat, used: nat, c: BucketContent) {
    exists k: nat :: start <= k < start + used && IsListingResponse(s.At(k)) &&
      c in s.At(k).document.contents
  }

  /** A listing never holds a zero-size entry, and every entry it holds
      comes from a listing page the transport returned during the calls the
      listing made. */
  lemma {:induction false} ListFromNonZero(s: Script, start: nat, retries: nat)
    requires PaginationEnds(s)
    ensures var l := ListFrom(s, start, retries);
      l.contents.Some? ==>
        forall c :: c in l.contents.value ==> c.size > 0 && ServedBetween(s, start, l.used, c)
    decreases |s.once| - start
  {
    var a := Retry(s, start, retries);
    var l := ListFrom(s, start, retries);
    if IsListingResponse(a.response) {
      var k0: nat := start + a.used - 1;
      assert a.response == s.At(k0);
      var page := a.response.document;
      forall c | c in NonZero(page.contents)
        ensures c.size > 0 && ServedBetween(s, start, l.used, c)
      {
        NonZeroMembers(page.contents, c);
      }
      if page.isTruncated {
        assert start + a.used - 1 < |s.once|;
        var rest := ListFrom(s, start + a.used, retries);
        ListFromNonZero(s, start + a.used, retries);
        if rest.contents.Some? {
          forall c | c in l.contents.value
            ensures c.size > 0 && ServedBetween(s, start, l.used, c)
          {
            if c !in NonZero(page.contents) {
              assert c in rest.contents.value;
              var k: nat :| start + a.used <= k < start + a.used + rest.used &&
                IsListingResponse(s.At(k)) && c in s.At(k).document.contents;
              assert start <= k < start + l.used;
            }
          }
        }
      }
    }
  }

  /** From call number `start` on, the transport answers successfully with
      payloads that are the documents `pages`, one call per page. */
  predicate ServesFrom(s: Script, start: nat, pages: seq<Document>) {
    forall k: nat :: start <= k < start + |pages| ==>
      s.At(k).IsSuccess() && s.At(k).document == pages[k - start]
  }

  /** `pages` are listing pages, all truncated but the last. */
  predicate IsPageChain(pages: seq<Document>) {
    |pages| >= 1 &&
    forall j :: 0 <= j < |pages| ==>
      pages[j].ListBucketDocument? && pages[j].isTruncated == (j < |pages| - 1)
  }

  /** The entries of `pages`, concatenated in order. */
  function AllContents(pages: seq<Document>): (r: seq<BucketContent>)
    requires forall j :: 0 <= j < |pages| ==> pages[j].ListBucketDocument?
  {
    if pages == [] then [] else pages[0].contents + AllContents(pages[1..])
  }

  /** Pagination join: when the transport serves a chain of listing pages
      one call each, the listing is the non-zero entries of all pages in
      order, obtained with exactly one call per page. */
  lemma {:induction false} ListingJoin(s: Script, start: nat, retries: nat,
                                       pages: seq<Document>)
    requires retries >= 1 && PaginationEnds(s)
    requires ServesFrom(s, start, pages)
    requires IsPageChain(pages)
    ensures ListFrom(s, start, retries) == Listing(Some(NonZero(AllContents(pages))), |pages|)
    decreases |pages|
  {
    assert s.At(start).IsSuccess() && s.At(start).document == pages[0];
    RetryFirstSuccess(s, start, retries, 0);
    if |pages| == 1 {
      assert AllContents(pages) == pages[0].contents + AllContents([]);
      assert pages[0].contents + [] == pages[0].contents;
    } else {
      var rest := pages[1..];
      assert AllContents(pages) == pages[0].contents + AllContents(rest);
      assert IsPageChain(rest) by {
        forall j | 0 <= j < |rest|
          ensures rest[j].ListBucketDocument? && rest[j].isTruncated == (j < |rest| - 1)
        {
          assert rest[j] == pages[j + 1];
        }
      }
      assert ServesFrom(s, start + 1, rest) by {
        forall k: nat | start + 1 <= k < start + 1 + |rest|
          ensures s.At(k).IsSuccess() && s.At(k).document == rest[k - (start + 1)]
        {
          assert rest[k - (start + 1)] == pages[k - start];
        }
      }
      assert start < |s.once|;
      ListingJoin(s, start + 1, retries, rest);
      NonZeroAppend(pages[0].contents, AllContents(rest));
    }
  }

  /** All-or-nothing: when a chain of truncated listing pages is followed by
      a page that the wrapper cannot obtain as a listing, the listing is None
      and the entries of the earlier pages are not returned. */
  lemma {:induction false} ListingAbort(s: Script, start: nat, retries: nat,
                                        pages: seq<Document>)
    requires PaginationEnds(s)
    requires ServesFrom(s, start, pages)
    requires forall j :: 0 <= j < |pages| ==> pages[j].ListBucketDocument? && pages[j].isTruncated
    requires retries >= 1 || pages == []
    requires !IsListingResponse(Retry(s, start + |pages|, retries).response)
    ensures ListFrom(s, start, retries) ==
      Listing(None, |pages| + Retry(s, start + |pages|, retries).used)
    decreases |pages|
  {
    if pages != [] {
      var rest := pages[1..];
      assert s.At(start).IsSuccess() && s.At(start).document == pages[0];
      RetryFirstSuccess(s, start, retries, 0);
      assert ServesFrom(s, start + 1, rest) by {
        forall k: nat | start + 1 <= k < start + 1 + |rest|
          ensures s.At(k).IsSuccess() && s.At(k).document == rest[k - (start + 1)]
        {
          assert rest[k - (start + 1)] == pages[k - start];
        }
      }
      assert start + 1 + |rest| == start + |pages|;
      assert start < |s.once|;
      ListingAbort(s, start + 1, retries, rest);
    }
  }

  /** Failure gives None: against a transport that always answers with a
      response that is not a listing (an error, a failure, or a payload that
      is not a listing document), the listing is None after using the
      whole retry budget on the first page. */
  lemma ListingAlwaysFailing(r: Response, start: nat, retries: nat)
    requires !IsListingResponse(r)
    ensures PaginationEnds(Always(r))
    ensures ListFrom(Always(r), start, retries) ==
      Listing(None, if retries == 0 || !r.IsSuccess() then retries else 1)
  {
    RetryConstant(r, start, retries);
  }

  /** The model's stand-in for arguments from which no listing URL can be
      formed: an empty scheme. The listing URL is the scheme, "://", the
      region's host and the bucket. The test suite fixes only that all-empty
      arguments are rejected and that https with region "nonexist" and an
      empty bucket is not. */
  predicate RejectsListArguments(schema: string, region: string, bucket: string, prefix: string) {
    schema == ""
  }

  // ---------------------------------------------------------------------
  // Ranged read and compression probe
  // ---------------------------------------------------------------------

  /** fetchData's verdict on the response to a ranged read of `len` bytes:
      the payload when the response is OK and exactly `len` bytes long, a
      runtime error otherwise. */
  function FetchOutcome(r: Response, len: nat): (o: Result<Bytes>)
    ensures o.Ok? <==> r.IsSuccess() && |r.data| == len
    ensures o.Ok? ==> o.value == r.data && |o.value| == len
    ensures r.IsSuccess() && |r.data| != len ==> o == Throw(ResponseNotFullyReceived)
    ensures r.status == ResponseError ==> o == Throw(ErrorResponseReturned)
    ensures r.status == ResponseFail ==> o == Throw(RequestFailed)
  {
    match r.status
    case ResponseOk => if |r.data| == len then Ok(r.data) else Throw(ResponseNotFullyReceived)
    case ResponseError => Throw(ErrorResponseReturned)
    case ResponseFail => Throw(RequestFailed)
  }

  /** The gzip member header starts with ID1 = 31 (0x1f) and ID2 = 139
      (0x8b), section 2.3.1 of RFC 1952. */
  const GzipId1: byte := 0x1f
  const GzipId2: byte := 0x8b

  predicate HasGzipMagic(data: Bytes) {
    |data| >= 2 && data[0] == GzipId1 && data[1] == GzipId2
  }

  /** checkCompressionType's verdict on the response to the probe of the
      first `probe` bytes: an error or failed response throws, a payload
      shorter than the probe is plain, otherwise the magic bytes decide. */
  function SniffCompression(r: Response, probe: nat): (o: Result<CompressionType>)
    requires probe >= 2
    ensures o.Throw? <==> !r.IsSuccess()
    ensures o == Ok(S3CompressionGzip) <==> r.IsSuccess() && |r.data| >= probe && HasGzipMagic(r.data)
    ensures r.IsSuccess() && |r.data| < probe ==> o == Ok(S3CompressionPlain)
  {
    match r.status
    case ResponseOk =>
      if |r.data| < probe then Ok(S3CompressionPlain)
      else if r.data[0] == GzipId1 && r.data[1] == GzipId2 then Ok(S3CompressionGzip)
      else Ok(S3CompressionPlain)
    case ResponseError => Throw(ErrorResponseReturned)
    case ResponseFail => Throw(RequestFailed)
  }

  // ---------------------------------------------------------------------
  // Objects
  // ---------------------------------------------------------------------

  /** The listing handed to the caller: its entries in listing order. */
  class ListBucketResult {
    var contents: seq<BucketContent>

    constructor ()
      ensures contents == []
    {
      contents := [];
    }

    /** Adds the entries of one page, skipping those of size zero. */
    method AppendPage(page: seq<BucketContent>)
      modifies this
      ensures contents == old(contents) + NonZero(page)
    {
      for i := 0 to |page|
        invariant contents == old(contents) + NonZero(page[..i])
      {
        assert page[..i + 1] == page[..i] + [page[i]];
        NonZeroAppend(page[..i], [page[i]]);
        assert [page[i]][1..] == [];
        if page[i].size > 0 {
          contents := contents + [page[i]];
        }
      }
      assert page[..|page|] == page;
    }
  }

  /** A caller-owned byte vector that fetchData fills. */
  class ByteVector {
    var data: Bytes

    constructor ()
      ensures data == []
    {
      data := [];
    }
  }

  class S3Service {
    /** The transport; null until one is set. */
    var service: MockRestfulService?
    /** Attempt budget of each listing page request. */
    const listRetries: nat
    /** Attempt budget of ranged reads and of the compression probe. */
    const fetchRetries: nat
    /** Number of leading bytes the compression probe asks for. */
    const probeSize: nat

    constructor (listRetries: nat, fetchRetries: nat, probeSize: nat)
      requires probeSize >= 2
      ensures service == null
      ensures this.listRetries == listRetries
      ensures this.fetchRetries == fetchRetries && this.probeSize == probeSize
    {
      service := null;
      this.listRetries := listRetries;
      this.fetchRetries := fetchRetries;
      this.probeSize := probeSize;
    }

    method SetRESTfulService(s: MockRestfulService)
      modifies this
      ensures service == s
    {
      service := s;
    }

    /** Issues the request up to `retries` times and returns the first
        successful response, or the last response, or the default failure
        when `retries` is zero. */
    method GetResponseWithRetries(url: string, headers: map<string, string>,
                                  params: map<string, string>, retries: nat)
      returns (r: Response)
      requires service != null
      modifies service
      ensures var a := Retry(service.script, old(service.calls), retries);
        r == a.response && service.calls == old(service.calls) + a.used
    {
      ghost var start := service.calls;
      var left: nat := retries;
      while left > 0
        invariant service.script == old(service.script)
        invariant left <= retries && (left == 0 ==> retries == 0)
        invariant service.calls == start + (retries - left)
        invariant left >= 1 ==>
          Retry(service.script, start, retries).response == Retry(service.script, service.calls, left).response
        invariant left >= 1 ==>
          Retry(service.script, start, retries).used == Retry(service.script, service.calls, left).used + (retries - left)
      {
        ghost var before := service.calls;
        assert Retry(service.script, before, left) ==
          if service.script.At(before).IsSuccess() || left == 1 then Attempt(service.script.At(before), 1)
          else var a := Retry(service.script, before + 1, left - 1); Attempt(a.response, a.used + 1);
        left := left - 1;
        var resp := service.Get(url, headers, params);
        if resp.IsSuccess() || left == 0 {
          assert Retry(service.script, before, left + 1) == Attempt(resp, 1);
          assert service.calls == start + (retries - left);
          return resp;
        }
      }
      assert retries == 0;
      r := DefaultResponse;
    }

    /** Lists the bucket page by page. A request that cannot be formed
        throws; a page that fails makes the whole listing null; otherwise the
        result holds the non-zero entries of every page. */
    method ListBucket(schema: string, region: string, bucket: string, prefix: string,
                      cred: S3Credential)
      returns (r: Result<ListBucketResult?>)
      requires service != null && PaginationEnds(service.script)
      modifies service
      ensures RejectsListArguments(schema, region, bucket, prefix) ==>
        r == Throw(InvalidListingRequest) && service.calls == old(service.calls)
      ensures !RejectsListArguments(schema, region, bucket, prefix) ==>
        var l := ListFrom(service.script, old(service.calls), listRetries);
        r.Ok? && service.calls == old(service.calls) + l.used &&
        (r.value == null <==> l.contents.None?) &&
        (r.value != null ==> fresh(r.value) && r.value.contents == l.contents.value)
    {
      if RejectsListArguments(schema, region, bucket, prefix) {
        return Throw(InvalidListingRequest);
      }
      var url := schema + "://s3-" + region + ".amazonaws.com/" + bucket;
      var result := ListPages(url, map[], map["prefix" := prefix]);
      return Ok(result);
    }

    /** The pagination loop of ListBucket: requests pages while they are
        truncated and appends the non-zero entries of each to one result;
        the first page that is not a listing makes the result null. */
    method ListPages(url: string, headers: map<string, string>, params: map<string, string>)
      returns (result: ListBucketResult?)
      requires service != null && PaginationEnds(service.script)
      modifies service
      ensures var l := ListFrom(service.script, old(service.calls), listRetries);
        service.calls == old(service.calls) + l.used &&
        (result == null <==> l.contents.None?) &&
        (result != null ==> fresh(result) && result.contents == l.contents.value)
    {
      ghost var s := service.script;
      ghost var start := service.calls;
      ghost var total := ListFrom(s, start, listRetries);
      ghost var done := start;
      JoinNothing(total);
      result := new ListBucketResult();
      var more := true;
      while more
        invariant done == service.calls && done >= start
        invariant result != null && fresh(result)
        invariant more ==> total == Join(result.contents, done - start, ListFrom(s, done, listRetries))
        invariant !more ==> total == Listing(Some(result.contents), done - start)
        decreases (if more then 1 else 0) + (if done <= |s.once| then |s.once| - done else 0)
      {
        ghost var a := Retry(s, done, listRetries);
        ListingLoopStep(s, start, done, listRetries, result.contents, total);
        var resp := GetResponseWithRetries(url, headers, params, listRetries);
        if !(resp.IsSuccess() && resp.document.ListBucketDocument?) {
          return null;
        }
        var page := resp.document;
        result.AppendPage(page.contents);
        more := page.isTruncated;
        done := done + a.used;
      }
    }

    /** Reads `len` bytes at `offset` of the object at `url` into `buffer`
        and returns the byte count; throws unless the response is OK and
        exactly `len` bytes long, leaving `buffer` as it was. */
    method FetchData(offset: nat, buffer: ByteVector, len: nat, url: string, region: string,
                     cred: S3Credential)
      returns (r: Result<nat>)
      requires service != null
      modifies service, buffer
      ensures var a := Retry(service.script, old(service.calls), fetchRetries);
        var o := FetchOutcome(a.response, len);
        service.calls == old(service.calls) + a.used &&
        (r.Ok? <==> o.Ok?) &&
        (r.Ok? ==> r.value == len && buffer.data == o.value) &&
        (r.Throw? ==> r.error == o.error && buffer.data == old(buffer.data))
    {
      var headers: map<string, string> := map[];
      var params: map<string, string> := map[];
      var resp := GetResponseWithRetries(url, headers, params, fetchRetries);
      match resp.status
      case ResponseOk =>
        if |resp.data| != len {
          return Throw(ResponseNotFullyReceived);
        }
        buffer.data := resp.data;
        return Ok(|resp.data|);
      case ResponseError =>
        return Throw(ErrorResponseReturned);
      case ResponseFail =>
        return Throw(RequestFailed);
    }

    /** Reads the first `probeSize` bytes of the object at `url` and tells
        whether they start with the gzip magic number. */
    method CheckCompressionType(url: string, region: string, cred: S3Credential)
      returns (r: Result<CompressionType>)
      requires service != null && probeSize >= 2
      modifies service
      ensures var a := Retry(service.script, old(service.calls), fetchRetries);
        service.calls == old(service.calls) + a.used && r == SniffCompression(a.response, probeSize)
    {
      var headers: map<string, string> := map[];
      var params: map<string, string> := map[];
      var resp := GetResponseWithRetries(url, headers, params, fetchRetries);
      match resp.status
      case ResponseOk =>
        if |resp.data| < probeSize {
          return Ok(S3CompressionPlain);
        }
        if resp.data[0] == GzipId1 && resp.data[1] == GzipId2 {
          return Ok(S3CompressionGzip);
        }
        return Ok(S3CompressionPlain);
      case ResponseError =>
        return Throw(ErrorResponseReturned);
      case ResponseFail =>
        return Throw(RequestFailed);
    }
  }
}
