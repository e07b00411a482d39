/** Values exchanged between the S3 access service and its RESTful transport:
    responses with their status and raw payload, the abstract view of an S3
    listing document, and the outcomes the service reports to its callers. */
module S3Types {

  newtype byte = x: int | 0 <= x < 256

  type Bytes = seq<byte>

  /** The three outcomes a RESTful request can have. */
  datatype ResponseStatus = ResponseOk | ResponseError | ResponseFail

  /** A transport response: its status, its raw payload, and the document
      that payload is as XML. The XML parser is not modelled: `document`
      stands for what it makes of `data`. */
  datatype Response = Response(status: ResponseStatus, data: Bytes, document: Document) {
    predicate IsSuccess() { status == ResponseOk }
  }

  /** What a default-constructed Response is: a failure with no payload. */
  const DefaultResponse: Response := Response(ResponseFail, [], Unparseable)

  /** One object of a bucket listing: its key and its size in bytes. */
  datatype BucketContent = BucketContent(key: string, size: nat)

  /** The shape of a listing payload once the XML has been parsed: a
      ListBucketResult page (its Contents in document order and its
      IsTruncated flag), an Error document, or something with no usable
      root element. */
  datatype Document =
    | ListBucketDocument(contents: seq<BucketContent>, isTruncated: bool)
    | ErrorDocument
    | Unparseable

  /** The reasons for which the service throws a runtime error. */
  datatype S3Error =
    | InvalidListingRequest     // the listing URL cannot be formed from the arguments
    | ResponseNotFullyReceived  // an OK ranged read returned a different byte count
    | ErrorResponseReturned     // the server answered with RESPONSE_ERROR
    | RequestFailed             // the request failed with RESPONSE_FAIL

  /** A value returned normally, or a thrown runtime error. */
  datatype Result<T> = Ok(value: T) | Throw(error: S3Error)

  datatype Option<T> = None | Some(value: T)

  datatype CompressionType = S3CompressionPlain | S3CompressionGzip

  /** Access credentials; forwarded to request signing, never inspected. */
  datatype S3Credential = S3Credential(accessId: string, secret: string)
}
