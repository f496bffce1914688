# AWSS3 command-line tool — a Dafny model

AWSS3 is a small command-line tool over an S3-compatible object store: list,
create, delete and probe buckets, set an object's ACL, apply a public-read
bucket policy, print a bucket's policy, and copy a URL's contents into a
bucket. Almost all of it forwards to the storage SDK. This project models the
parts with logic of their own:

- the public-read policy builder (`generate_public_read_policy`), with the
  dictionary it is rendered as, a decoder for that dictionary and a parser
  for the resource string it builds (`policy.dfy`);
- how each storage wrapper in `src/awss3/core.py` builds its request and
  classifies the outcome — return, `None`, `False` or re-raise
  (`storage.dfy`);
- the per-command decision table of `main.py`: prompt, request made, lines
  echoed on stdout and stderr, and the exit code or uncaught exception
  (`cli.dfy`);
- the once-only construction of the client handle and its region default
  (`session.dfy`).

The storage service is a function from a request (`Storage.StorageCall`) to
an outcome (`Outcomes.CallOutcome`: a response or a raised `Error`). An error
is a `ClientError` carrying the service's error code or any other exception,
and its `text` stands for the exception's string form. `json.dumps` and
`json.loads` are opaque functions held in a `Json.Codec`. The confirmation
answer of `delete` and the process environment are inputs.

`ls` catches nothing, so a listing failure ends as an uncaught exception
(`Cli.Status.Uncaught`). `exists` likewise lets exceptions other than
client errors escape uncaught. The one deliberate departure from the code is
the `make_public` success line (see Findings).

## Model

| member | source | states |
|---|---|---|
| Policy.GeneratePublicReadPolicy | src/awss3/core.py:115-133 | version "2012-10-17"; exactly one statement; Sid "PublicRead", Effect "Allow", Principal "*", Action ["s3:GetObject"] whatever the inputs; Resource is `arn:aws:s3:::bucket/prefix/*` for a non-empty prefix and `arn:aws:s3:::bucket/*` otherwise |
| Policy.ResourceRoundTrip | src/awss3/core.py:116-120 | for a bucket name without a slash, bucket and prefix are read back exactly from the resource string |
| Policy.GeneratedPolicyDeterminesTarget | src/awss3/core.py:115-133 | for slash-free bucket names, equal generated policies imply equal bucket and equal prefix |
| Policy.SlashInBucketCollides | src/awss3/core.py:115-120 | with no name validation, bucket "a/b" without prefix and bucket "a" with prefix "b" give the same policy |
| Policy.ToJson | src/awss3/core.py:122-133 | the dictionary has the keys Version then Statement, Version holds the version, and there is one entry per statement |
| Policy.DocumentRoundTrip | src/awss3/core.py:122-133 | the dictionary rendering loses nothing: decoding it gives back the document |
| Storage.ListBucketNames | src/awss3/core.py:25-31 | succeeds exactly when the listing succeeds, with the listed names in order; a missing Buckets field gives an empty list; errors re-raised unchanged |
| Storage.CreateBucketRequest | src/awss3/core.py:38-45 | the request names the bucket and carries a location constraint exactly when a region is given, equal to that region |
| Storage.CreateBucketRequestKeepsArguments | src/awss3/core.py:38-45 | equal create requests come from equal bucket names and equal regions, so a given empty region stays distinct from no region |
| Storage.Acknowledge | src/awss3/core.py:46-50 | returns true exactly when the request succeeded and otherwise re-raises the same error |
| Storage.BucketExists | src/awss3/core.py:68-72 | true exactly when the head request succeeds; false for every client error code; only non-client exceptions escape, unchanged |
| Storage.PolicyText | src/awss3/core.py:139-140 | a dictionary policy is serialised, a text policy is forwarded unchanged |
| Storage.CreateBucketPolicyRequest | src/awss3/core.py:139-146 | the policy request is addressed to the given bucket and carries the serialised dictionary or the forwarded text |
| Storage.DictAndSerialisedPolicyAgree | src/awss3/core.py:139-146 | passing a dictionary or its serialisation sends the same request |
| Storage.ReadBucketPolicy | src/awss3/core.py:157-165 | None exactly for a NoSuchBucketPolicy client error; every other error re-raised unchanged; on success the parsed policy text; a decoding failure or a missing Policy field raises a non-client error |
| Storage.ReadBucketPolicyAbsorbsOnlyMissingPolicy | src/awss3/core.py:160-165 | the missing-policy error is never raised, and a raised client error is always the service's own |
| Session.GetEnv | main.py:34-38 | a variable is present exactly when it is set, with its value |
| Session.Configure | main.py:33-39 | region defaults to us-east-1 when the region variable is unset and is otherwise its value (even empty); each credential field is present exactly when its variable is set |
| Session.GetClient | main.py:30-40 | builds a handle only when none is cached, returns the cached one otherwise, and leaves the returned handle cached |
| Session.GetClientReuses | main.py:30-40 | after the first call, later calls return the same handle, construct nothing and ignore the environment |
| Cli.BulletLines | main.py:51-52 | one `  - name` line per bucket, in input order |
| Cli.Listing | main.py:48-54 | exactly "No buckets found" for an empty list, otherwise the header and then one bullet line per name in order |
| Cli.ListingRoundTrip | main.py:48-54 | the bucket names are read back exactly from the ls output |
| Cli.RunLs | main.py:46-54 | one listing request; on success exit 0 and the output lists exactly the returned names; on failure the exception is uncaught and nothing is printed |
| Cli.Guarded | main.py:58-63 | inside try/except: success line and exit 0, or one echoed error line with the exception text on stderr and exit 1 |
| Cli.RunCreate | main.py:56-63 | one create request built from bucket and region; exit 0 exactly when it succeeds, with the created line |
| Cli.RunDelete | main.py:65-78 | asks exactly when not forced; a declined answer prints "Operation cancelled", makes no request and exits 0; forced or confirmed, one delete request: on success the deleted line and exit 0, on failure one echoed error line with the exception text and exit 1 |
| Cli.RunExists | main.py:80-86 | exit 0 with the exists line exactly when the head request succeeds; exit 1 with the does-not-exist line exactly on a client error; any other exception uncaught |
| Cli.ExistsSeesOnlyThreeAnswers | main.py:80-86 | two services give the same exists transcript exactly when both heads succeed, both raise a client error of any code or text, or both raise the same other exception, so an access-denied answer reads as a missing bucket |
| Cli.RunUploadFromUrl | main.py:88-95 | one fetch-and-upload step; exit 0 exactly when it succeeds, with the uploaded line |
| Cli.RunSetAccess | main.py:97-104 | one ACL request with the given ACL; exit 0 exactly when it succeeds, with the set-to line |
| Cli.AsWrittenRunsTogether | main.py:112-113 | as written, the prefix clause follows the bucket's closing quote with no space |
| Cli.MakePublicMessage | main.py:112-113 | the line starts with the bucket clause; it is only that clause exactly when there is no prefix; otherwise a space follows it |
| Cli.CorrectionInsertsOneSpace | main.py:112-113 | with a prefix, the corrected line is the written one with a single space inserted after the bucket clause |
| Cli.RunMakePublic | main.py:106-116 | one policy request for the generated policy; exit 0 exactly when it succeeds, with the applied line |
| Cli.MakePublicAppliesGeneratedPolicy | main.py:109-110 | the request puts the serialised generated policy on the same bucket, and that dictionary decodes to the generated policy |
| Cli.RunGetPolicy | main.py:118-128 | a truthy policy is printed as indented JSON; an absent or falsy one prints "No policy found for bucket '…'"; both exit 0; any other error gives the error line and exit 1; never uncaught |
| Cli.Run | main.py:46-128 | at most one request; exit codes are 0 or 1, with no echoed error line at exit 0; only ls and exists can end uncaught (client construction assumed not to raise); only an unforced delete prompts, and only a declined one makes no request |
| Cli.ForcedDeleteIgnoresAnswer | main.py:67-74 | a forced delete's transcript does not depend on the confirmation answer and always holds the delete request |
| Cli.CaughtFailureExitsOne | main.py:56-128 | for create, delete, upload_from_url, set_access, make_public and get_policy, a raising request gives exit 1, no stdout and one echoed error line with the command's lead-in and the error text; only get_policy spares the missing-policy error |
| Cli.FalsyPolicyReadsAsMissing | main.py:121-125 | a stored policy decoding to a falsy value prints the same transcript as a bucket without a policy |
| Cli.Invoke | main.py:28-44 | over the callback and the command, the client is constructed exactly once, from the environment, and the command runs against that client |

## Left out

- `init_client` (src/awss3/core.py:11-19): session and client construction belong to the storage SDK; the handle is an opaque record of its configuration, and its construction in the callback (main.py:42-44, outside any `try`) is assumed not to raise, so `Cli.Invoke` cannot fail there.
- The `s3_client=None` default of every wrapper: the command-line tool always passes its client.
- `download_file_and_upload_to_s3` (src/awss3/core.py:74-97): HTTP streaming, the temporary file and the upload are I/O; the whole step is one abstract request, `Storage.FetchAndUpload`, whose outcome the command reports.
- `set_object_access_policy` and `delete_bucket` have no logic beyond one request and `Storage.Acknowledge`.
- The remote service's semantics (a bucket exists after creation, a policy reads back as written): they belong to the service, not to this code.
- JSON serialisation and parsing are opaque functions; JSON numbers are integers, so floats (and the falsy `0.0`) are not modelled.
- Storage.ReadBucketPolicy: Python returns `None` both for a missing policy and for a stored policy text `null`; the model keeps the second as a decoded null value, and `Cli.FalsyPolicyReadsAsMissing` shows the tool prints the same for both.
- Logging: the info records after a successful create, delete, upload, ACL or policy request (src/awss3/core.py:46, 58, 93, 109, 147), the missing-policy warning (src/awss3/core.py:162) and the error records before each re-raise reach stderr through the handler main.py:22-25 installs; `Cli.Transcript.stderr` holds only the lines the commands echo with `err=True`.
- The ` [y/N]: ` suffix `typer.confirm` writes after each question on stdout; `Cli.Transcript.prompts` holds the questions, which precede the echoed stdout lines.
- Dotenv loading and typer's argument parsing and help text, including the argument defaults (ACL `public-read`, empty prefix): a `Cli.Command` carries every argument explicitly.
- An interrupted or aborted `typer.confirm` prompt: the answer is modelled as a boolean.
- A bucket entry without a `Name` field in the listing response.
- `src/awss3/__init__.py`: it only re-exports names.

## Findings

| source | as written | input that shows it | evidently intended | confidence | as-written member | corrected member |
|---|---|---|---|---|---|---|
| main.py:112-113 | the prefix clause is appended straight after the bucket's closing quote | bucket `b`, prefix `p` prints `Public read policy applied to bucket 'b'with prefix 'p'` | a space before `with prefix` | high; not executed | Cli.AsWrittenRunsTogether | Cli.MakePublicMessage |

`Cli.MakePublicMessageAsWritten` is the line as the code builds it; `Cli.RunMakePublic` prints the corrected `Cli.MakePublicMessage`.
