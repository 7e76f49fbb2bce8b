/** What the bucket manager sends to and receives from the AWS SDK's `S3Client`.
    The client itself is not modelled: each call's outcome is an input. */
module S3Client {
  import opened Wrappers

  /** The settings handed to `new S3Client([...])`. */
  datatype Credentials = Credentials(key: string, secret: string)
  datatype ClientSettings = ClientSettings(version: string, region: string, credentials: Credentials)

  /** The argument arrays of the four SDK calls the manager makes. */
  datatype Request =
    | ListObjectsV2(bucket: string, prefix: Option<string>)
    | GetObject(bucket: string, key: string)
    | PutObject(bucket: string, key: string, body: string)
    | DeleteObject(bucket: string, key: string)

  /** The class of an exception the SDK raises. `S3Exception` extends
      `AwsException`; anything else is not an `AwsException` at all. */
  datatype ExceptionClass = S3Exception | OtherAwsException | NonAwsException

  predicate IsAwsException(c: ExceptionClass)
  {
    c == S3Exception || c == OtherAwsException
  }

  /** A call either returns its response or raises an exception with a message. */
  datatype SdkOutcome<+T> = Ok(value: T) | Err(exception: ExceptionClass, message: string)

  /** One entry of a listing's `Contents`. */
  datatype ObjectSummary = ObjectSummary(key: string)

  datatype ListObjectsResponse = ListObjectsResponse(contents: seq<ObjectSummary>)

  datatype GetObjectResponse = GetObjectResponse(body: string)
}
