/** The unit tests' scenarios, replayed against the contracts of the facade:
    a manager on bucket `test-bucket` whose SDK calls answer as the mocked
    client does. */
module Scenarios {
  import opened Wrappers
  import opened S3Client
  import opened Sanitizer
  import opened BucketManager

  method TestManager() returns (manager: S3BucketManager)
    ensures manager.bucketName == "test-bucket"
  {
    manager := new S3BucketManager(Config("us-east-1", "test-key", "test-secret", "test-bucket"));
  }

  method ListFilesScenario()
  {
    var manager := TestManager();
    var listing := ListObjectsResponse([ObjectSummary("file1.txt"), ObjectSummary("file2.txt")]);
    var request, files, log := manager.ListFiles(None, Ok(listing));
    assert request == ListObjectsV2("test-bucket", None);
    assert files.value == ["file1.txt", "file2.txt"];
  }

  method GetFileScenario()
  {
    var manager := TestManager();
    SanitizeKeepsPlainName("file.txt");
    var request, read, log := manager.GetFile("file.txt", Ok(GetObjectResponse("This is the file content.")));
    assert request == GetObject("test-bucket", "file.txt");
    assert read == Returned(Some("This is the file content."));
  }

  method CreateFileScenario()
  {
    var manager := TestManager();
    SanitizeKeepsPlainName("newfile.txt");
    var request, report, log := manager.CreateFile("newfile.txt", "New file content", Ok(()));
    assert request == PutObject("test-bucket", "newfile.txt", "New file content");
    assert report == Returned("File uploaded successfully: " + "newfile.txt");
  }

  method UpdateFileScenario()
  {
    var manager := TestManager();
    SanitizeKeepsPlainName("updatefile.txt");
    var request, report, log := manager.UpdateFile("updatefile.txt", "Updated content", Ok(()));
    assert request == PutObject("test-bucket", "updatefile.txt", "Updated content");
    assert report == Returned("File updated successfully: " + "updatefile.txt");
  }

  method DeleteFileScenario()
  {
    var manager := TestManager();
    SanitizeKeepsPlainName("deletefile.txt");
    var request, report, log := manager.DeleteFile("deletefile.txt", Ok(()));
    assert request == DeleteObject("test-bucket", "deletefile.txt");
    assert report == Returned("File deleted successfully: " + "deletefile.txt");
  }

  method FailureScenarios()
  {
    var manager := TestManager();
    var request, files, log := manager.ListFiles(None, Err(S3Exception, "Error fetching files"));
    assert files == Returned([]);
    assert log == [Error("Error fetching files from S3 bucket: " + "Error fetching files")];

    var read;
    request, read, log := manager.GetFile("nonexistentfile.txt", Err(S3Exception, "Error reading file"));
    assert read == Returned(None);
    assert log == [Error("Error reading file: " + "Error reading file")];
  }

  /** `updateFile` sends exactly the request `createFile` sends, and the two
      return or throw together. */
  method UpdateMatchesCreate(manager: S3BucketManager, fileName: string, content: string, response: SdkOutcome<()>)
    returns (created: Request, updated: Request, createReport: Completion<string>, updateReport: Completion<string>)
    ensures created == updated == PutObject(manager.bucketName, SanitizeFileName(fileName), content)
    ensures createReport.Returned? <==> updateReport.Returned?
    ensures createReport.Threw? ==> createReport == updateReport
  {
    var log;
    created, createReport, log := manager.CreateFile(fileName, content, response);
    updated, updateReport, log := manager.UpdateFile(fileName, content, response);
  }

  /** A caller of `listFiles` cannot tell an empty listing from a failed one. */
  method EmptyListingLooksLikeFailure(manager: S3BucketManager, prefix: Option<string>, message: string)
    returns (empty: Completion<seq<string>>, failed: Completion<seq<string>>)
    ensures empty == failed == Returned([])
  {
    var request, log;
    request, empty, log := manager.ListFiles(prefix, Ok(ListObjectsResponse([])));
    request, failed, log := manager.ListFiles(prefix, Err(S3Exception, message));
  }
}
