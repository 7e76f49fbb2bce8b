# S3 bucket manager, modelled in Dafny

A model of `RocksCoder\S3BucketManager\S3BucketManager`, a thin PHP facade over
the AWS SDK's `S3Client`. The facade has two parts:

- **The file-name sanitizer** (`sanitizeFileName`). It is one PHP call,
  `str_replace(['/', '\\', '..'], '', $name)`. PHP applies the search strings
  one after another, and each is a left-to-right, non-overlapping removal over
  the result of the previous one. The model (`sanitizer.dfy`, module
  `Sanitizer`) writes this as three passes of the recursive `RemoveAll`. It proves:
  - the result has no `/`, no `\` and no `..`;
  - a maximal run of `k` dots becomes `k % 2` dots;
  - sanitizing is the identity exactly on names that are already safe, so it is idempotent;
  - the result is a subsequence of the name;
  - only separators and dots are deleted, and dots only in pairs;
  - the order of the passes matters.
- **The facade** (`bucket_manager.dfy`, module `BucketManager`, class
  `S3BucketManager`). The constructor's client settings and bucket name are
  `const` fields. Each of the five operations receives the outcome of its one
  SDK call as an argument: either the response, or an exception with its class
  and message. Each operation returns three things:
  - the request it sends (bucket, key, prefix, body);
  - how the PHP method ends (it returns a value, or an exception escapes);
  - the lines it passes to the logger.

  `listFiles` copies the keys of `Contents` with a loop, as the PHP `foreach` does.

`s3_client.dfy` (module `S3Client`) holds the SDK vocabulary: request shapes,
exception classes, responses. `wrappers.dfy` holds `Option`, which stands for
PHP's nullable values. `scenarios.dfy` replays the unit tests
(tests/Unit/S3BucketManagerTest.php) against the facade's contracts: the same
bucket, mocked answers and expected strings. It also relates pairs of calls:
update against create, and an empty listing against a failed one.

Two behaviours of the code are worth stating outright:

- Not every operation catches every service error. `listFiles` catches only
  `S3Exception` (src/S3BucketManager.php:79), so any other `AwsException`
  escapes from it. The other four catch `AwsException`. An exception that is
  not an `AwsException` escapes from all five. The model has three exception
  classes (`S3Exception`, `OtherAwsException`, `NonAwsException`) and a
  `Threw` completion for these cases.
- The success and error strings embed the `file_name` exactly as given. The
  request carries the sanitized key. So `createFile("a/../b", …)` stores key
  `ab` but reports `File uploaded successfully: a/../b`.

## Model

| member | source | states |
|---|---|---|
| `Sanitizer.SanitizeFileName` | src/S3BucketManager.php:178-182 | the sanitized name contains no `/`, no `\` and no `..` substring |
| `Sanitizer.RemoveAllCharAbsent` | src/S3BucketManager.php:181 | removing a one-character search string leaves no occurrence of that character |
| `Sanitizer.RemoveAllKeepsAbsent` | src/S3BucketManager.php:181 | a later pass cannot bring back a character an earlier pass removed |
| `Sanitizer.RemoveDoubleDots` | src/S3BucketManager.php:181 | removing `..` left to right leaves no `..`, since emptied dot runs only join non-dot characters; a name not starting with a dot keeps its first character |
| `Sanitizer.DotRunHalves` | src/S3BucketManager.php:181 | a maximal run of `k` dots comes out as `k % 2` dots, and the rest is processed independently |
| `Sanitizer.RemoveAllAbsent` | src/S3BucketManager.php:181 | a pass leaves unchanged a string that does not contain its search string |
| `Sanitizer.RemoveAllSubsequence` | src/S3BucketManager.php:181 | each pass only deletes characters and keeps the rest in order |
| `Sanitizer.RemoveAllCharCounts` | src/S3BucketManager.php:181 | removing one character keeps every other character as often as it occurred |
| `Sanitizer.RemoveDoubleDotsOthers` | src/S3BucketManager.php:181 | removing `..` keeps every non-dot character as often as it occurred |
| `Sanitizer.RemoveDoubleDotsPairs` | src/S3BucketManager.php:181 | removing `..` deletes dots two at a time: exactly twice the number of pairs the pass drops |
| `Sanitizer.SanitizeFixedPoint` | src/S3BucketManager.php:181 | sanitizing returns the name unchanged if and only if the name contains none of `/`, `\`, `..` |
| `Sanitizer.SanitizeIdempotent` | src/S3BucketManager.php:181 | sanitizing twice gives the same key as sanitizing once |
| `Sanitizer.SanitizeSubsequence` | src/S3BucketManager.php:181 | the sanitized name is a subsequence of the name, so it is never longer |
| `Sanitizer.SanitizeDeletes` | src/S3BucketManager.php:181 | characters other than `/`, `\` and `.` survive as often as they occur; dots are deleted only in pairs, so their count keeps its parity |
| `Sanitizer.SanitizeKeepsPlainName` | src/S3BucketManager.php:181 | a name with no separator and no two adjacent dots (such as the tests' `file.txt`) is its own key |
| `Sanitizer.SanitizeTraversal` | src/S3BucketManager.php:181 | the removal is literal, not path resolution: `a..b` and `a/../b` both become `ab` |
| `Sanitizer.SanitizeSeparatorsAndRuns` | src/S3BucketManager.php:181 | `a/b` and `a\b` both become `ab` (distinct names collide), and `...` becomes `.` |
| `Sanitizer.SanitizeOrderMatters` | src/S3BucketManager.php:181 | with the source's pass order `./.` becomes the empty key; removing `..` first would have left `..` |
| `BucketManager.S3BucketManager.constructor` | src/S3BucketManager.php:45-56 | the client gets version `latest`, the configured region and credentials; the bucket name is stored as configured |
| `BucketManager.S3BucketManager.ListFiles` | src/S3BucketManager.php:63-83 | lists the stored bucket under the prefix, passed unsanitized. On success it returns the `Key` of every `Contents` entry in order and logs them joined by `, `. On an `S3Exception` it returns the empty list and logs the error text. Any other exception escapes |
| `BucketManager.S3BucketManager.GetFile` | src/S3BucketManager.php:90-104 | gets the sanitized key, a safe key, from the stored bucket. It returns the body on success and null on an `AwsException`, logging `Error reading file: ` with the message. Any other exception escapes |
| `BucketManager.S3BucketManager.CreateFile` | src/S3BucketManager.php:112-127 | puts the content under the sanitized key in the stored bucket. Returns `File uploaded successfully: ` with the unsanitized name, or `Error uploading file: ` with the message on an `AwsException`. The text begins with the success phrase exactly when the upload succeeded |
| `BucketManager.S3BucketManager.UpdateFile` | src/S3BucketManager.php:135-150 | sends the same put request as `CreateFile`. Returns `File updated successfully: ` with the unsanitized name, or `Error updating file: ` with the message; the success phrase appears exactly when the put succeeded |
| `BucketManager.S3BucketManager.DeleteFile` | src/S3BucketManager.php:157-171 | deletes the sanitized key in the stored bucket with no existence check. Returns `File deleted successfully: ` with the unsanitized name, or `Error deleting file: ` with the message; the success phrase appears exactly when the delete succeeded |
| `Scenarios.TestManager` | tests/Unit/S3BucketManagerTest.php:46-63 | the tests' manager targets bucket `test-bucket` |
| `Scenarios.UpdateMatchesCreate` | src/S3BucketManager.php:112-150 | for the same name, content and SDK outcome, `updateFile` sends the same put request as `createFile`, and both return, or both let the same exception escape |
| `Scenarios.EmptyListingLooksLikeFailure` | src/S3BucketManager.php:72-81 | an empty `Contents` and an `S3Exception` both make `listFiles` return the empty list |

## Left out

- The AWS SDK calls (`listObjectsV2`, `getObject`, `putObject`, `deleteObject`) and the S3 service behind them are not modelled. Each call's outcome is an argument. So storage properties (a read after a write returns the body; deleting twice succeeds twice) are not modelled: they come from the service, not from this code.
- `Log::info` / `Log::error` are a global side effect in the source. The model returns the logged lines as a value; it does not model an exception thrown by the logger itself.
- The constant `'ACL' => 'public-read'` entry of every request array is left out. It changes nothing inside this code.
- The constructor building the `S3Client` is modelled by the settings it passes. An SDK constructor that throws, and missing keys in the configuration array, are not modelled.
- A listing response without `Contents` is not modelled: PHP would warn on the `foreach`. `Contents` is a possibly empty sequence. Entries keep only `Key`, the one field the code reads.
- The SDK returns `Body` as a stream. The model treats it as the string the method's `?string` return type yields.
- PHP strings are byte strings; the model uses `seq<char>`. The three search strings are ASCII, and ASCII bytes never occur inside a multi-byte UTF-8 character, so removal is the same on bytes and on characters.
- src/S3BucketManagerServiceProvider.php (container registration) and src/config/s3-bucket-manager.php (environment lookups) are not part of this model. The provider also calls the constructor with four positional arguments, while the constructor takes one array.
