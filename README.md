# S3Service: retrying requests, paginated bucket listing, ranged reads, gzip sniffing

This project models the S3 access service of the gps3ext extension, which
lets Greenplum read external tables stored in Amazon S3. The service sits on
a pluggable RESTful transport, whose `get` call returns a `Response`: an
OK, ERROR or FAIL status plus the raw payload. The service offers four
operations on top of it:

- **getResponseWithRetries** issues one request at most `retries` times. It
  returns the first OK response, or else the response of the last attempt.
  With a budget of zero it makes no call and returns the default response,
  which is a FAIL.
- **listBucket** pages through a bucket listing (S3 ListBucketResult XML)
  while the pages say IsTruncated.
  - It keeps the Contents entries whose size is not zero, in order, across
    all pages.
  - It is all-or-nothing: if any page cannot be fetched or is not a
    listing, it returns null and never a partial listing.
  - It throws when the listing request cannot be formed from its arguments.
- **fetchData** asks for `len` bytes of an object, starting at an offset,
  and copies them into the caller's buffer. It returns `len` only when an
  OK response carries exactly `len` bytes. It throws on a short or long
  payload, on an ERROR response and on a FAIL response. The model leaves
  the buffer unchanged when the call throws; no test looks at the buffer
  then, so this is a modelling choice.
- **checkCompressionType** reads the first bytes of an object. It reports
  GZIP when the response holds a full probe's worth of bytes and they start
  with the gzip magic number 1f 8b (ID1 and ID2 in section 2.3.1 of RFC
  1952, GZIP file format specification version 4.3). It reports PLAIN
  otherwise, including for an object shorter than the probe. It throws
  when the read returns an error response.

The transport is modelled as a mock (`RestfulService.MockRestfulService`)
that follows a `Script`: a list of one-shot answers, then one answer
repeated for every later call. A mock with a chain of one-shot
answers, optionally followed by a repeated answer, behaves this way.

Each service operation is specified by a function of the script and the
number of calls already made:
- `Retry` for getResponseWithRetries;
- `ListFrom` for listBucket;
- `FetchOutcome` and `SniffCompression` for the other two.

The methods of `S3Interface.S3Service` are proved to compute exactly those
functions. They are also proved to make exactly the transport calls each
function accounts for.

The test fixture is module `S3InterfaceTest`:
- `BuildListBucketResponse` builds the fixture's listing pages.
- Every test case is a method that sets up a fresh service and mock, calls
  the operation, and returns what the test inspects. Its `ensures` are the
  test's expectations.
- Those expectations are proved for every retry budget and probe size the
  test leaves open, and for every payload byte string.

Files:
- `s3types.dfy`: responses, documents, listing entries, errors;
- `restful_service.dfy`: the scripted transport;
- `s3interface.dfy`: the service, its specification functions and their
  lemmas;
- `s3interface_test.dfy`: the fixture and the test cases.

Two behaviours fixed by the test suite differ from what a reader might
assume, and the model follows the test suite in both:
- A listing with the https scheme, region "nonexist" and an empty bucket
  does not throw. It returns null (s3interface_test.cpp:97-101). An empty
  bucket is therefore not treated as a usage error. The model throws only
  when the URL cannot be formed, which it represents as an empty scheme.
- A two-byte object holding just 1f 8b is PLAIN, not GZIP
  (s3interface_test.cpp:310-321). The probe must return a full probe's worth
  of bytes before the magic number is looked at.

## Model

All source paths are in `gpAux/extensions/gps3ext/test/`.

| member | source | states |
|---|---|---|
| S3Interface.Retry | gpAux/extensions/gps3ext/test/s3interface_test.cpp:70-90 | A zero budget yields the default FAIL response with no call. Otherwise it uses between 1 and n calls and returns the answer of the last call it made. A non-OK result means the whole budget was used. |
| S3Interface.RetryStopsAtFirstSuccess | gpAux/extensions/gps3ext/test/s3interface_test.cpp:70-90 | Every attempt before the one returned failed, so the wrapper stops at the first OK. |
| S3Interface.RetryFirstSuccess | gpAux/extensions/gps3ext/test/s3interface_test.cpp:246-267 | If attempts fail up to attempt k and attempt k succeeds, exactly k+1 calls are made and attempt k's response is returned. |
| S3Interface.RetryAllFail | gpAux/extensions/gps3ext/test/s3interface_test.cpp:78-90 | If every attempt fails, all n calls are made and the last response is returned. |
| S3Interface.RetryConstant | gpAux/extensions/gps3ext/test/s3interface_test.cpp:269-295 | Against a repeated answer, one call is made if it is OK. Otherwise the full budget is used and that answer is returned. |
| RestfulService.MockRestfulService.Get | gpAux/extensions/gps3ext/test/s3interface_test.cpp:83-86 | Each `get` answers with the script's response for the current call number, and counts one more call. |
| S3Interface.S3Service.SetRESTfulService | gpAux/extensions/gps3ext/test/s3interface_test.cpp:22 | The service sends all its requests through the given transport from then on. |
| S3Interface.S3Service.GetResponseWithRetries | gpAux/extensions/gps3ext/test/s3interface_test.cpp:70-90 | Returns `Retry(script, calls so far, retries).response` and advances the mock's call count by exactly `Retry(...).used`. |
| S3Interface.NonZero | gpAux/extensions/gps3ext/test/s3interface_test.cpp:188-215 | The kept entries are no more than the page's entries, and every one has a non-zero size. |
| S3Interface.NonZeroMembers | gpAux/extensions/gps3ext/test/s3interface_test.cpp:188-215 | An entry is kept if and only if it is on the page and its size is not zero. |
| S3Interface.NonZeroAppend | gpAux/extensions/gps3ext/test/s3interface_test.cpp:188-197 | Filtering distributes over concatenation, so pages can be filtered one at a time. |
| S3Interface.NonZeroKeepsPositive | gpAux/extensions/gps3ext/test/s3interface_test.cpp:143-174 | A page without zero-size entries is kept whole, in order. |
| S3Interface.NonZeroDropsZeros | gpAux/extensions/gps3ext/test/s3interface_test.cpp:208-215 | A page of zero-size entries contributes nothing. |
| S3Interface.IsListingResponse | gpAux/extensions/gps3ext/test/s3interface_test.cpp:103-123 | Defines the responses that carry the listing on: OK responses whose payload is a ListBucketResult page; an Error document or unusable XML stops it. |
| S3Interface.ListFrom | gpAux/extensions/gps3ext/test/s3interface_test.cpp:143-244 | The reference definition of listBucket's result. A zero budget gives null with no call; otherwise at least one call is made. |
| S3Interface.ListFromStep | gpAux/extensions/gps3ext/test/s3interface_test.cpp:143-186 | One page step: a failed page gives null; a last page gives its kept entries; a truncated page is followed by the listing from the next call on. |
| S3Interface.ListFromNonZero | gpAux/extensions/gps3ext/test/s3interface_test.cpp:188-215 | A listing the loop returns holds no zero-size entry. Every entry it holds was on a listing page the transport returned during the listing's own calls. |
| S3Interface.ListingJoin | gpAux/extensions/gps3ext/test/s3interface_test.cpp:143-174 | A chain of listing pages, truncated up to the last, yields the kept entries of all pages concatenated in order, using one call per page. |
| S3Interface.ListingAbort | gpAux/extensions/gps3ext/test/s3interface_test.cpp:176-186 | When a page after some truncated ones fails, the listing is null (all-or-nothing). The calls are one per page plus those of the failing retry. |
| S3Interface.ListingAlwaysFailing | gpAux/extensions/gps3ext/test/s3interface_test.cpp:97-123 | Against a repeated answer that is not an OK listing, the listing is null, and the retry budget is used up (one call if the answer is OK but not a listing). |
| S3Interface.FetchOutcome | gpAux/extensions/gps3ext/test/s3interface_test.cpp:246-308 | A read succeeds if and only if the response is OK with exactly `len` bytes, and then yields exactly those bytes. A wrong length, an ERROR status and a FAIL status each throw their own error. |
| S3Interface.SniffCompression | gpAux/extensions/gps3ext/test/s3interface_test.cpp:310-370 | Throws if and only if the response is not OK. GZIP if and only if the payload has at least the probe's length and starts with 1f 8b. An OK payload shorter than the probe is PLAIN. |
| S3Interface.ListBucketResult.AppendPage | gpAux/extensions/gps3ext/test/s3interface_test.cpp:188-197 | Appends the page's non-zero entries, in order, to the result's contents. |
| S3Interface.RejectsListArguments | gpAux/extensions/gps3ext/test/s3interface_test.cpp:92-101 | The condition under which listBucket throws: the scheme is empty, so no URL can be formed. |
| S3Interface.S3Service.ListBucket | gpAux/extensions/gps3ext/test/s3interface_test.cpp:92-101 | Throws without calling the transport when the arguments cannot form a request. Otherwise it returns null exactly when `ListFrom` is None, or a fresh result holding exactly `ListFrom`'s entries. It makes exactly `ListFrom`'s calls. |
| S3Interface.S3Service.ListPages | gpAux/extensions/gps3ext/test/s3interface_test.cpp:143-186 | The page loop: null exactly when `ListFrom` is None, otherwise a fresh result with its entries; the mock advances by `ListFrom(...).used` calls. |
| S3Interface.S3Service.FetchData | gpAux/extensions/gps3ext/test/s3interface_test.cpp:246-308 | Returns `len` and fills the buffer with the payload exactly when `FetchOutcome` is Ok. Otherwise it throws `FetchOutcome`'s error and leaves the buffer unchanged. |
| S3Interface.S3Service.CheckCompressionType | gpAux/extensions/gps3ext/test/s3interface_test.cpp:310-370 | Returns `SniffCompression` of the retried probe response and makes exactly the retry's calls. |
| S3InterfaceTest.PageContents | gpAux/extensions/gps3ext/test/s3interface_test.cpp:35-55 | A fixture page holds 1 + n + z entries: the placeholder first, then "files" i-1 of size i for i in 1..n, then the "zerofiles" entries of size 0. |
| S3InterfaceTest.SetUp | gpAux/extensions/gps3ext/test/s3interface_test.cpp:14-23 | A fresh service over a fresh mock that follows the script, with no call made yet and the given budgets and probe size. |
| S3InterfaceTest.BuildListBucketResponse | gpAux/extensions/gps3ext/test/s3interface_test.cpp:35-55 | An OK response whose page is the placeholder "s3files/" of size 0, then "files0".."files(n-1)" of sizes 1..n, then "zerofiles0".. of size 0, with the given IsTruncated flag. |
| S3InterfaceTest.PageKept | gpAux/extensions/gps3ext/test/s3interface_test.cpp:35-55 | Of a fixture page exactly the n sized files are kept, in order. |
| S3InterfaceTest.KeptCountIsLength | gpAux/extensions/gps3ext/test/s3interface_test.cpp:152-197 | The length of a multi-page listing is the sum of the pages' kept counts. |
| S3InterfaceTest.RunListBucket | gpAux/extensions/gps3ext/test/s3interface_test.cpp:92-244 | A fresh service and mock: the call throws exactly when the arguments are rejected; otherwise it reports null, size and calls as `ListFrom` gives them. |
| S3InterfaceTest.ListPageChain | gpAux/extensions/gps3ext/test/s3interface_test.cpp:143-215 | A chain of one-shot listing pages returns without throwing, gives a non-null result whose size is the sum of the pages' kept counts, with one call per page. |
| S3InterfaceTest.RunFetchData | gpAux/extensions/gps3ext/test/s3interface_test.cpp:246-308 | fetchData into a fresh empty buffer matches `FetchOutcome` of the retried response. |
| S3InterfaceTest.RunCheckCompressionType | gpAux/extensions/gps3ext/test/s3interface_test.cpp:310-370 | checkCompressionType on a fresh service equals `SniffCompression` of the retried response, and makes the retry's calls. |
| S3InterfaceTest.GetResponseWithZeroRetry | gpAux/extensions/gps3ext/test/s3interface_test.cpp:70-76 | A zero budget gives FAIL and no transport call. |
| S3InterfaceTest.GetResponseWithTwoRetries | gpAux/extensions/gps3ext/test/s3interface_test.cpp:78-90 | Two failing answers give FAIL after exactly two calls. |
| S3InterfaceTest.ListBucketThrowExceptionWhenBucketStringIsEmpty | gpAux/extensions/gps3ext/test/s3interface_test.cpp:92-95 | All-empty arguments throw, with no call. |
| S3InterfaceTest.ListBucketWithWrongRegion | gpAux/extensions/gps3ext/test/s3interface_test.cpp:97-101 | Does not throw and returns null. |
| S3InterfaceTest.ListBucketWithWrongBucketName | gpAux/extensions/gps3ext/test/s3interface_test.cpp:103-123 | An Error document with ERROR status gives null. |
| S3InterfaceTest.ListBucketWithNormalBucket | gpAux/extensions/gps3ext/test/s3interface_test.cpp:125-141 | Returns without throwing, non-null, with 1 entry, after 1 call. |
| S3InterfaceTest.ListBucketWithBucketWith1000Keys | gpAux/extensions/gps3ext/test/s3interface_test.cpp:143-150 | Returns without throwing, non-null, with 1000 entries, after 1 call. |
| S3InterfaceTest.ListBucketWithBucketWith1001Keys | gpAux/extensions/gps3ext/test/s3interface_test.cpp:152-160 | Returns without throwing, non-null, with 1001 entries, after 2 calls. |
| S3InterfaceTest.ListBucketWithBucketWithMoreThan1000Keys | gpAux/extensions/gps3ext/test/s3interface_test.cpp:162-174 | Returns without throwing, non-null, with 5120 entries, after 6 calls. |
| S3InterfaceTest.ListBucketWithBucketWithTruncatedResponse | gpAux/extensions/gps3ext/test/s3interface_test.cpp:176-186 | Null, after 2 + retries calls. |
| S3InterfaceTest.ListBucketWithBucketWithZeroSizedKeys | gpAux/extensions/gps3ext/test/s3interface_test.cpp:188-197 | Returns without throwing, non-null, with 1120 entries, after 3 calls. |
| S3InterfaceTest.ListBucketWithEmptyBucket | gpAux/extensions/gps3ext/test/s3interface_test.cpp:199-206 | Returns without throwing, non-null, with 0 entries, after 1 call. |
| S3InterfaceTest.ListBucketWithAllZeroedFilesBucket | gpAux/extensions/gps3ext/test/s3interface_test.cpp:208-215 | Returns without throwing, non-null, with 0 entries, after 1 call. |
| S3InterfaceTest.ListBucketWithErrorResponse | gpAux/extensions/gps3ext/test/s3interface_test.cpp:217-222 | Null. |
| S3InterfaceTest.ListBucketWithUnparseableErrorPayload | gpAux/extensions/gps3ext/test/s3interface_test.cpp:224-244 | A payload with no usable root element ("whatever", or a bare XML declaration) with ERROR status gives null. |
| S3InterfaceTest.FetchDataRoutine | gpAux/extensions/gps3ext/test/s3interface_test.cpp:246-267 | The buffer equals the 100 payload bytes, 100 is returned, and one call is made. |
| S3InterfaceTest.FetchDataErrorResponse | gpAux/extensions/gps3ext/test/s3interface_test.cpp:269-281 | Throws. |
| S3InterfaceTest.FetchDataFailedResponse | gpAux/extensions/gps3ext/test/s3interface_test.cpp:283-295 | Throws. |
| S3InterfaceTest.FetchDataPartialResponse | gpAux/extensions/gps3ext/test/s3interface_test.cpp:297-308 | 80 bytes for 100 asked throws, after 1 call. |
| S3InterfaceTest.CheckSmallFile | gpAux/extensions/gps3ext/test/s3interface_test.cpp:310-321 | A two-byte 1f 8b object is PLAIN, after 1 call. |
| S3InterfaceTest.CheckItsGzipCompressed | gpAux/extensions/gps3ext/test/s3interface_test.cpp:323-334 | Four bytes starting 1f 8b are GZIP, after 1 call. |
| S3InterfaceTest.CheckItsNotCompressed | gpAux/extensions/gps3ext/test/s3interface_test.cpp:336-347 | Four bytes starting 1f 88 are PLAIN, after 1 call. |
| S3InterfaceTest.CheckCompressionTypeWithResponseError | gpAux/extensions/gps3ext/test/s3interface_test.cpp:349-370 | Throws. |
| S3InterfaceTest.FetchDataWithResponseError | gpAux/extensions/gps3ext/test/s3interface_test.cpp:372-395 | Throws. |

## Left out

- The implementation file s3interface.cpp is not part of this model. The
  behaviour modelled is the one its test suite fixes.
- XML parsing and generation are not modelled. A `Response` carries the
  `document` its payload parses to: a ListBucketResult page, an Error
  document, or nothing usable. The generator's bytes are parameters of the
  page builder. The page's Name and Prefix elements are not represented.
- URL, query, marker and header construction are not modelled. The model
  keeps only the listing URL; the transport mock ignores URL, headers and
  parameters.
- Request signing, credentials, HTTP/TLS transport and the region's role
  in the endpoint are not modelled.
- The retry budgets and the compression probe size are constructor
  parameters. The test suite does not fix their values, and every test
  expectation is proved for all values it allows.
- The check for arguments that cannot form a request is modelled as "the
  scheme is empty". The tests pin only that all-empty arguments throw and
  https/"nonexist"/"" does not.
- S3Interface.S3Service.ListBucket: requires that the transport's repeated
  answer is not a truncated listing. That is the condition under which the
  page loop ends. A server that keeps answering truncated pages forever is
  not modelled.
- S3Interface.S3Service.ListPages: carries the same requirement on the
  transport's repeated answer, for the same reason.
- S3Interface.S3Service.FetchData: does not model the byte range. The
  `offset` and `len` would go into a Range header, which is not built, and
  the mock ignores headers. So nothing ties the buffer to bytes
  [offset, offset + len) of the object; the model states only that the
  buffer holds the payload of the answer.
- S3Interface.S3Service.FetchData: the buffer is left unchanged when the
  call throws. The tests do not fix this.
- S3Interface.S3Service.CheckCompressionType: uses the fetch retry budget.
  The tests do not say which budget the probe uses.
- Calls beyond the mock's expected count (`Times`) are not flagged as
  failures. They simply receive the script's repeated answer or the default
  response.
- Logging set-up, test tear-down and memory management are not modelled.
  Nothing in the tests depends on them.
- The random payload of the fetch test is a parameter: any 100 bytes.
