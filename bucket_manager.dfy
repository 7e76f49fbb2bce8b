/** The `S3BucketManager` facade: five operations on one fixed bucket, each a
    single SDK call whose exceptions are logged and turned into a default
    value or an error string. */
module BucketManager {
  import opened Wrappers
  import opened S3Client
  import opened Sanitizer

  /** The keys the constructor reads from its configuration array. */
  datatype Config = Config(awsRegion: string, awsAccessKeyId: string, awsSecretAccessKey: string, bucketName: string)

  /** A message passed to `Log::info` or `Log::error`. */
  datatype LogEntry = Info(text: string) | Error(text: string)

  /** How a PHP method ends: it returns a value or lets an exception escape. */
  datatype Completion<+T> = Returned(value: T) | Threw(exception: ExceptionClass, message: string)

  /** `implode($sep, $parts)`. */
  function Join(sep: string, parts: seq<string>): string
  {
    if |parts| == 0 then ""
    else if |parts| == 1 then parts[0]
    else parts[0] + sep + Join(sep, parts[1..])
  }

  class S3BucketManager {
    const s3: ClientSettings
    const bucketName: string

    constructor (config: Config)
      ensures s3 == ClientSettings("latest", config.awsRegion, Credentials(config.awsAccessKeyId, config.awsSecretAccessKey))
      ensures bucketName == config.bucketName
    {
      s3 := ClientSettings("latest", config.awsRegion, Credentials(config.awsAccessKeyId, config.awsSecretAccessKey));
      bucketName := config.bucketName;
    }

    /** `listFiles`: the keys of the listing in the order received. Only an
        `S3Exception` is caught; it yields the empty list, just as an empty
        listing does. */
    method ListFiles(prefix: Option<string>, response: SdkOutcome<ListObjectsResponse>)
      returns (request: Request, result: Completion<seq<string>>, log: seq<LogEntry>)
      ensures request == ListObjectsV2(bucketName, prefix)
      ensures response.Ok? ==>
        && result.Returned?
        && |result.value| == |response.value.contents|
        && (forall i :: 0 <= i < |result.value| ==> result.value[i] == response.value.contents[i].key)
        && log == [Info("Files retrieved from S3 bucket: " + Join(", ", result.value))]
      ensures response.Err? && response.exception == S3Exception ==>
        result == Returned([]) && log == [Error("Error fetching files from S3 bucket: " + response.message)]
      ensures response.Err? && response.exception != S3Exception ==>
        result == Threw(response.exception, response.message) && log == []
    {
      request := ListObjectsV2(bucketName, prefix);
      match response
      case Ok(listing) =>
        var files: seq<string> := [];
        for i := 0 to |listing.contents|
          invariant |files| == i
          invariant forall j :: 0 <= j < i ==> files[j] == listing.contents[j].key
        {
          files := files + [listing.contents[i].key];
        }
        log := [Info("Files retrieved from S3 bucket: " + Join(", ", files))];
        result := Returned(files);
      case Err(exception, message) =>
        if exception == S3Exception {
          log := [Error("Error fetching files from S3 bucket: " + message)];
          result := Returned([]);
        } else {
          log := [];
          result := Threw(exception, message);
        }
    }

    /** `getFile`: the object's body, or null when the SDK raises an `AwsException`. */
    method GetFile(fileName: string, response: SdkOutcome<GetObjectResponse>)
      returns (request: Request, result: Completion<Option<string>>, log: seq<LogEntry>)
      ensures request == GetObject(bucketName, SanitizeFileName(fileName))
      ensures IsSafeKey(request.key)
      ensures response.Ok? ==>
        result == Returned(Some(response.value.body)) && log == [Info("File content retrieved: " + fileName)]
      ensures response.Err? && IsAwsException(response.exception) ==>
        result == Returned(None) && log == [Error("Error reading file: " + response.message)]
      ensures response.Err? && !IsAwsException(response.exception) ==>
        result == Threw(response.exception, response.message) && log == []
    {
      request := GetObject(bucketName, SanitizeFileName(fileName));
      match response
      case Ok(got) =>
        log := [Info("File content retrieved: " + fileName)];
        result := Returned(Some(got.body));
      case Err(exception, message) =>
        if IsAwsException(exception) {
          log := [Error("Error reading file: " + message)];
          result := Returned(None);
        } else {
          log := [];
          result := Threw(exception, message);
        }
    }

    /** `createFile`: put the content under the sanitized key and report the
        name as given. The report starts with the success text exactly when the
        upload succeeded. */
    method CreateFile(fileName: string, fileContent: string, response: SdkOutcome<()>)
      returns (request: Request, result: Completion<string>, log: seq<LogEntry>)
      ensures request == PutObject(bucketName, SanitizeFileName(fileName), fileContent)
      ensures IsSafeKey(request.key)
      ensures response.Ok? ==>
        result == Returned("File uploaded successfully: " + fileName) && log == [Info(result.value)]
      ensures response.Err? && IsAwsException(response.exception) ==>
        result == Returned("Error uploading file: " + response.message) && log == [Error(result.value)]
      ensures response.Err? && !IsAwsException(response.exception) ==>
        result == Threw(response.exception, response.message) && log == []
      ensures result.Returned? ==> ("File uploaded successfully: " <= result.value <==> response.Ok?)
    {
      request := PutObject(bucketName, SanitizeFileName(fileName), fileContent);
      match response
      case Ok(_) =>
        var message := "File uploaded successfully: " + fileName;
        log := [Info(message)];
        result := Returned(message);
      case Err(exception, message) =>
        if IsAwsException(exception) {
          var report := "Error uploading file: " + message;
          assert report[0] == 'E';
          log := [Error(report)];
          result := Returned(report);
        } else {
          log := [];
          result := Threw(exception, message);
        }
    }

    /** `updateFile`: the same put request as `createFile`; only the texts differ. */
    method UpdateFile(fileName: string, newFileContent: string, response: SdkOutcome<()>)
      returns (request: Request, result: Completion<string>, log: seq<LogEntry>)
      ensures request == PutObject(bucketName, SanitizeFileName(fileName), newFileContent)
      ensures IsSafeKey(request.key)
      ensures response.Ok? ==>
        result == Returned("File updated successfully: " + fileName) && log == [Info(result.value)]
      ensures response.Err? && IsAwsException(response.exception) ==>
        result == Returned("Error updating file: " + response.message) && log == [Error(result.value)]
      ensures response.Err? && !IsAwsException(response.exception) ==>
        result == Threw(response.exception, response.message) && log == []
      ensures result.Returned? ==> ("File updated successfully: " <= result.value <==> response.Ok?)
    {
      request := PutObject(bucketName, SanitizeFileName(fileName), newFileContent);
      match response
      case Ok(_) =>
        var message := "File updated successfully: " + fileName;
        log := [Info(message)];
        result := Returned(message);
      case Err(exception, message) =>
        if IsAwsException(exception) {
          var report := "Error updating file: " + message;
          assert report[0] == 'E';
          log := [Error(report)];
          result := Returned(report);
        } else {
          log := [];
          result := Threw(exception, message);
        }
    }

    /** `deleteFile`: delete the sanitized key, with no existence check. */
    method DeleteFile(fileName: string, response: SdkOutcome<()>)
      returns (request: Request, result: Completion<string>, log: seq<LogEntry>)
      ensures request == DeleteObject(bucketName, SanitizeFileName(fileName))
      ensures IsSafeKey(request.key)
      ensures response.Ok? ==>
        result == Returned("File deleted successfully: " + fileName) && log == [Info(result.value)]
      ensures response.Err? && IsAwsException(response.exception) ==>
        result == Returned("Error deleting file: " + response.message) && log == [Error(result.value)]
      ensures response.Err? && !IsAwsException(response.exception) ==>
        result == Threw(response.exception, response.message) && log == []
      ensures result.Returned? ==> ("File deleted successfully: " <= result.value <==> response.Ok?)
    {
      request := DeleteObject(bucketName, SanitizeFileName(fileName));
      match response
      case Ok(_) =>
        var message := "File deleted successfully: " + fileName;
        log := [Info(message)];
        result := Returned(message);
      case Err(exception, message) =>
        if IsAwsException(exception) {
          var report := "Error deleting file: " + message;
          assert report[0] == 'E';
          log := [Error(report)];
          result := Returned(report);
        } else {
          log := [];
          result := Threw(exception, message);
        }
    }
  }
}
