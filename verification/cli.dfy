/** The command-line tool: for each command, what it asks, which storage
    request it makes, what it prints on each stream and how the process ends,
    as a pure function of the command, the confirmation answer, the storage
    service's answers and the JSON codec. */
module Cli {
  import opened Outcomes
  import opened Json
  import Policy
  import opened Storage
  import opened Session

  const ListingHeader := "Available buckets:"
  const NoBuckets := "No buckets found"
  const Bullet := "  - "
  const Cancelled := "Operation cancelled"

  /** One parsed invocation of the tool. */
  datatype Command =
    | Ls
    | Create(bucket: string, region: Option<string>)
    | Delete(bucket: string, force: bool)
    | Exists(bucket: string)
    | UploadFromUrl(url: string, bucket: string, key: string)
    | SetAccess(bucket: string, key: string, acl: string)
    | MakePublic(bucket: string, prefix: string)
    | GetPolicy(bucket: string)

  /** How the process ends: an exit code, or an exception nothing caught. */
  datatype Status = Exit(code: nat) | Uncaught(error: Error)

  /** What one invocation shows: the confirmation questions asked, the
      requests made, the lines the commands echo to stdout and (with
      `err=True`) to stderr, and how the process ends. The questions are
      written to stdout, each followed by ` [y/N]: `, ahead of the echoed
      stdout lines. Log records, which the logging set up in main.py writes
      to stderr, are not part of `stderr`. */
  datatype Transcript = Transcript(
    prompts: seq<string>,
    calls: seq<StorageCall>,
    stdout: seq<string>,
    stderr: seq<string>,
    status: Status)

  // ---------------------------------------------------------------------------
  // ls

  function BulletLines(names: seq<string>): (lines: seq<string>)
    ensures |lines| == |names|
    ensures forall i :: 0 <= i < |names| ==> lines[i] == Bullet + names[i]
  {
    if names == [] then [] else [Bullet + names[0]] + BulletLines(names[1..])
  }

  /** What `ls` prints for the listed names. */
  function Listing(names: seq<string>): (lines: seq<string>)
    ensures names == [] ==> lines == ["No buckets found"]
    ensures names != [] ==> |lines| == |names| + 1 && lines[0] == "Available buckets:"
    ensures names != [] ==> forall i :: 0 <= i < |names| ==> lines[i + 1] == "  - " + names[i]
  {
    if names == [] then [NoBuckets] else [ListingHeader] + BulletLines(names)
  }

  function ParseBullets(lines: seq<string>): Option<seq<string>> {
    if lines == [] then Some([])
    else if |lines[0]| < |Bullet| || lines[0][..|Bullet|] != Bullet then None
    else match ParseBullets(lines[1..])
      case None => None
      case Some(rest) => Some([lines[0][|Bullet|..]] + rest)
  }

  /** Reads the bucket names back from the output of `ls`. */
  function ParseListing(lines: seq<string>): Option<seq<string>> {
    if lines == [NoBuckets] then Some([])
    else if |lines| >= 2 && lines[0] == ListingHeader then ParseBullets(lines[1..])
    else None
  }

  lemma {:induction false} BulletsRoundTrip(names: seq<string>)
    ensures ParseBullets(BulletLines(names)) == Some(names)
  {
    if names != [] {
      var lines := BulletLines(names);
      assert lines[0][..|Bullet|] == Bullet;
      assert lines[0][|Bullet|..] == names[0];
      assert lines[1..] == BulletLines(names[1..]);
      BulletsRoundTrip(names[1..]);
      assert [names[0]] + names[1..] == names;
    }
  }

  /** The output of `ls` names every bucket, in order, and nothing else; an
      empty listing cannot be mistaken for a bucket called "No buckets found". */
  lemma ListingRoundTrip(names: seq<string>)
    ensures ParseListing(Listing(names)) == Some(names)
  {
    if names != [] {
      BulletsRoundTrip(names);
      assert Listing(names)[1..] == BulletLines(names);
    }
  }

  function RunLs(service: Service): (t: Transcript)
    ensures t.calls == [ListBuckets] && t.prompts == [] && t.stderr == []
    ensures service(ListBuckets).Raised? ==> t.status == Uncaught(service(ListBuckets).error) && t.stdout == []
    ensures service(ListBuckets).Ok? ==>
              t.status == Exit(0) && ParseListing(t.stdout) == Some(service(ListBuckets).value.buckets.GetOr([]))
  {
    match ListBucketNames(service(ListBuckets))
    case Ok(names) =>
      ListingRoundTrip(names);
      Transcript([], [ListBuckets], Listing(names), [], Exit(0))
    case Raised(e) => Transcript([], [ListBuckets], [], [], Uncaught(e))
  }

  // ---------------------------------------------------------------------------
  // Commands that wrap their one request in `try ... except Exception`

  /** The error line's lead-in for each command that reports failures itself. */
  function FailurePrefix(cmd: Command): string {
    match cmd
    case Create(_, _) => "Error creating bucket: "
    case Delete(_, _) => "Error deleting bucket: "
    case UploadFromUrl(_, _, _) => "Error uploading file: "
    case SetAccess(_, _, _) => "Error setting access policy: "
    case MakePublic(_, _) => "Error applying public policy: "
    case GetPolicy(_) => "Error reading bucket policy: "
    case _ => ""
  }

  /** One request under `try ... except Exception`: the success line and exit
      0, or the error line on stderr and exit 1. */
  function Guarded(call: StorageCall, r: CallOutcome<bool>, success: string, failure: string): (t: Transcript)
    ensures t.calls == [call] && t.prompts == []
    ensures r.Ok? ==> t.status == Exit(0) && t.stdout == [success] && t.stderr == []
    ensures r.Raised? ==> t.status == Exit(1) && t.stdout == [] && t.stderr == [failure + r.error.text]
  {
    match r
    case Ok(_) => Transcript([], [call], [success], [], Exit(0))
    case Raised(e) => Transcript([], [call], [], [failure + e.text], Exit(1))
  }

  function RunCreate(bucket: string, region: Option<string>, service: Service): (t: Transcript)
    ensures t.calls == [CreateBucketRequest(bucket, region)]
    ensures t.status == Exit(0) <==> service(CreateBucketRequest(bucket, region)).Ok?
    ensures t.status == Exit(0) ==> t.stdout == ["Bucket '" + bucket + "' created successfully"]
  {
    var call := CreateBucketRequest(bucket, region);
    Guarded(call, Acknowledge(service(call)), "Bucket '" + bucket + "' created successfully",
            FailurePrefix(Create(bucket, region)))
  }

  function DeleteQuestion(bucket: string): string {
    "Are you sure you want to delete bucket '" + bucket + "'?"
  }

  /** `delete`: asks first unless forced; a declined answer cancels without
      any request and ends normally. */
  function RunDelete(bucket: string, force: bool, confirmed: bool, service: Service): (t: Transcript)
    ensures force ==> t.prompts == []
    ensures !force ==> t.prompts == [DeleteQuestion(bucket)]
    ensures !force && !confirmed ==>
              t.calls == [] && t.stdout == ["Operation cancelled"] && t.stderr == [] && t.status == Exit(0)
    ensures force || confirmed ==> t.calls == [DeleteBucket(bucket)]
    ensures (force || confirmed) && service(DeleteBucket(bucket)).Ok? ==>
              t.status == Exit(0) && t.stdout == ["Bucket '" + bucket + "' deleted successfully"] && t.stderr == []
    ensures (force || confirmed) && service(DeleteBucket(bucket)).Raised? ==>
              t.status == Exit(1) && t.stdout == []
              && t.stderr == ["Error deleting bucket: " + service(DeleteBucket(bucket)).error.text]
  {
    var prompts := if force then [] else [DeleteQuestion(bucket)];
    if !force && !confirmed then
      Transcript(prompts, [], [Cancelled], [], Exit(0))
    else
      var call := DeleteBucket(bucket);
      var t := Guarded(call, Acknowledge(service(call)), "Bucket '" + bucket + "' deleted successfully",
                       FailurePrefix(Delete(bucket, force)));
      t.(prompts := prompts)
  }

  /** `exists`: exit 0 when the bucket answers, exit 1 on any client error
      (an access-denied answer included), uncaught for any other exception. */
  function RunExists(bucket: string, service: Service): (t: Transcript)
    ensures t.calls == [HeadBucket(bucket)] && t.prompts == [] && t.stderr == []
    ensures t.status == Exit(0) <==> service(HeadBucket(bucket)).Ok?
    ensures t.status == Exit(1) <==> service(HeadBucket(bucket)).Raised? && service(HeadBucket(bucket)).error.ClientError?
    ensures t.status == Exit(0) ==> t.stdout == ["Bucket '" + bucket + "' exists"]
    ensures t.status == Exit(1) ==> t.stdout == ["Bucket '" + bucket + "' does not exist"]
    ensures t.status.Uncaught? ==> t.status.error == service(HeadBucket(bucket)).error && t.stdout == []
  {
    var call := HeadBucket(bucket);
    match BucketExists(service(call))
    case Ok(true) => Transcript([], [call], ["Bucket '" + bucket + "' exists"], [], Exit(0))
    case Ok(false) => Transcript([], [call], ["Bucket '" + bucket + "' does not exist"], [], Exit(1))
    case Raised(e) => Transcript([], [call], [], [], Uncaught(e))
  }

  /** `exists` tells apart only three answers: the bucket answered, some
      client error (whatever its code or text, access denied included), or a
      particular other exception. */
  lemma ExistsSeesOnlyThreeAnswers(bucket: string, s1: Service, s2: Service)
    ensures var o1 := s1(HeadBucket(bucket));
            var o2 := s2(HeadBucket(bucket));
            RunExists(bucket, s1) == RunExists(bucket, s2) <==>
              (o1.Ok? && o2.Ok?)
              || (o1.Raised? && o2.Raised? && o1.error.ClientError? && o2.error.ClientError?)
              || (o1.Raised? && o2.Raised? && o1.error.OtherError? && o1.error == o2.error)
  {
  }

  function RunUploadFromUrl(url: string, bucket: string, key: string, service: Service): (t: Transcript)
    ensures t.calls == [FetchAndUpload(url, bucket, key)]
    ensures t.status == Exit(0) <==> service(FetchAndUpload(url, bucket, key)).Ok?
    ensures t.status == Exit(0) ==> t.stdout == ["File from " + url + " uploaded to s3://" + bucket + "/" + key]
  {
    var call := FetchAndUpload(url, bucket, key);
    Guarded(call, Acknowledge(service(call)), "File from " + url + " uploaded to s3://" + bucket + "/" + key,
            FailurePrefix(UploadFromUrl(url, bucket, key)))
  }

  function RunSetAccess(bucket: string, key: string, acl: string, service: Service): (t: Transcript)
    ensures t.calls == [PutObjectAcl(bucket, key, acl)]
    ensures t.status == Exit(0) <==> service(PutObjectAcl(bucket, key, acl)).Ok?
    ensures t.status == Exit(0) ==> t.stdout == ["Access policy for s3://" + bucket + "/" + key + " set to " + acl]
  {
    var call := PutObjectAcl(bucket, key, acl);
    Guarded(call, Acknowledge(service(call)), "Access policy for s3://" + bucket + "/" + key + " set to " + acl,
            FailurePrefix(SetAccess(bucket, key, acl)))
  }

  // ---------------------------------------------------------------------------
  // make_public

  function AppliedMessage(bucket: string): string {
    "Public read policy applied to bucket '" + bucket + "'"
  }

  /** The success line exactly as main.py builds it: the prefix clause is
      appended with no space after the bucket's closing quote. */
  function MakePublicMessageAsWritten(bucket: string, prefix: string): string {
    AppliedMessage(bucket) + (if prefix != "" then "with prefix '" + prefix + "'" else "")
  }

  /** Exhibits the missing space: for bucket `b` and prefix `p` the line reads
      `... bucket 'b'with prefix 'p'`. */
  lemma AsWrittenRunsTogether(bucket: string, prefix: string)
    requires prefix != ""
    ensures var m := MakePublicMessageAsWritten(bucket, prefix);
            |m| > |AppliedMessage(bucket)| && m[|AppliedMessage(bucket)| - 1] == '\'' && m[|AppliedMessage(bucket)|] == 'w'
  {
  }

  /** The success line as evidently intended, which the model uses: the
      bucket clause, then a space and the prefix clause when a prefix is
      given. */
  function MakePublicMessage(bucket: string, prefix: string): (m: string)
    ensures |m| >= |AppliedMessage(bucket)| && m[..|AppliedMessage(bucket)|] == AppliedMessage(bucket)
    ensures prefix == "" <==> m == AppliedMessage(bucket)
    ensures prefix != "" ==> m[|AppliedMessage(bucket)|] == ' '
  {
    AppliedMessage(bucket) + (if prefix != "" then " with prefix '" + prefix + "'" else "")
  }

  /** The corrected line differs from the written one only by the space
      inserted after the bucket clause; without a prefix both are the bare
      bucket clause. */
  lemma CorrectionInsertsOneSpace(bucket: string, prefix: string)
    requires prefix != ""
    ensures var w := MakePublicMessageAsWritten(bucket, prefix);
            var n := |AppliedMessage(bucket)|;
            |w| >= n && MakePublicMessage(bucket, prefix) == w[..n] + " " + w[n..]
  {
    var w := MakePublicMessageAsWritten(bucket, prefix);
    var n := |AppliedMessage(bucket)|;
    assert w[..n] == AppliedMessage(bucket);
    assert w[n..] == "with prefix '" + prefix + "'";
  }

  /** The request `make_public` makes: the generated public-read policy for
      the same bucket and prefix, rendered as a dictionary and serialised. */
  function MakePublicRequest(bucket: string, prefix: string, codec: Codec): StorageCall {
    CreateBucketPolicyRequest(bucket, DictPolicy(Policy.ToJson(Policy.GeneratePublicReadPolicy(bucket, prefix)).members), codec.dumps)
  }

  function RunMakePublic(bucket: string, prefix: string, service: Service, codec: Codec): (t: Transcript)
    ensures t.calls == [MakePublicRequest(bucket, prefix, codec)]
    ensures t.status == Exit(0) <==> service(MakePublicRequest(bucket, prefix, codec)).Ok?
    ensures t.status == Exit(0) ==> t.stdout == [MakePublicMessage(bucket, prefix)]
  {
    var call := MakePublicRequest(bucket, prefix, codec);
    Guarded(call, Acknowledge(service(call)), MakePublicMessage(bucket, prefix),
            FailurePrefix(MakePublic(bucket, prefix)))
  }

  /** `make_public` applies exactly the generated policy to the named bucket:
      the serialised dictionary reads back as that policy. */
  lemma MakePublicAppliesGeneratedPolicy(bucket: string, prefix: string, codec: Codec)
    ensures var call := MakePublicRequest(bucket, prefix, codec);
            var v := Policy.ToJson(Policy.GeneratePublicReadPolicy(bucket, prefix));
            call == PutBucketPolicy(bucket, codec.dumps(v))
            && Policy.FromJson(v) == Some(Policy.GeneratePublicReadPolicy(bucket, prefix))
  {
    Policy.DocumentRoundTrip(Policy.GeneratePublicReadPolicy(bucket, prefix));
  }

  // ---------------------------------------------------------------------------
  // get_policy

  function NoPolicyLine(bucket: string): string {
    "No policy found for bucket '" + bucket + "'"
  }

  /** `get_policy`: the policy as indented JSON when it is truthy, the
      no-policy line when it is absent or falsy, and exit 1 on any error. */
  function RunGetPolicy(bucket: string, service: Service, codec: Codec): (t: Transcript)
    ensures t.calls == [GetBucketPolicy(bucket)] && t.prompts == []
    ensures t.status == Exit(0) || t.status == Exit(1)
    ensures var r := ReadBucketPolicy(service(GetBucketPolicy(bucket)), codec.loads);
            (r.Ok? && (r.value.None? || !Truthy(r.value.value)) ==>
               t.status == Exit(0) && t.stdout == ["No policy found for bucket '" + bucket + "'"])
            && (r.Ok? && r.value.Some? && Truthy(r.value.value) ==>
               t.status == Exit(0) && t.stdout == [codec.dumpsIndented(r.value.value)])
            && (r.Raised? ==> t.status == Exit(1) && t.stdout == []
                              && t.stderr == ["Error reading bucket policy: " + r.error.text])
  {
    var call := GetBucketPolicy(bucket);
    match ReadBucketPolicy(service(call), codec.loads)
    case Ok(policy) =>
      if policy.Some? && Truthy(policy.value) then
        Transcript([], [call], [codec.dumpsIndented(policy.value)], [], Exit(0))
      else
        Transcript([], [call], [NoPolicyLine(bucket)], [], Exit(0))
    case Raised(e) => Transcript([], [call], [], [FailurePrefix(GetPolicy(bucket)) + e.text], Exit(1))
  }

  // ---------------------------------------------------------------------------
  // The whole tool

  /** One invocation of the tool, after argument parsing. */
  function Run(cmd: Command, confirmed: bool, service: Service, codec: Codec): (t: Transcript)
    ensures |t.calls| <= 1
    ensures t.status == Exit(0) ==> t.stderr == []
    ensures t.status.Exit? ==> t.status.code <= 1
    ensures t.status.Uncaught? ==> cmd.Ls? || cmd.Exists?
    ensures t.prompts != [] ==> cmd.Delete? && !cmd.force
    ensures t.calls == [] ==> cmd.Delete? && !cmd.force && !confirmed
  {
    match cmd
    case Ls => RunLs(service)
    case Create(bucket, region) => RunCreate(bucket, region, service)
    case Delete(bucket, force) => RunDelete(bucket, force, confirmed, service)
    case Exists(bucket) => RunExists(bucket, service)
    case UploadFromUrl(url, bucket, key) => RunUploadFromUrl(url, bucket, key, service)
    case SetAccess(bucket, key, acl) => RunSetAccess(bucket, key, acl, service)
    case MakePublic(bucket, prefix) => RunMakePublic(bucket, prefix, service, codec)
    case GetPolicy(bucket) => RunGetPolicy(bucket, service, codec)
  }

  /** A forced delete never asks, so the answer it would have got is irrelevant. */
  lemma ForcedDeleteIgnoresAnswer(bucket: string, a1: bool, a2: bool, service: Service, codec: Codec)
    ensures Run(Delete(bucket, true), a1, service, codec) == Run(Delete(bucket, true), a2, service, codec)
    ensures Run(Delete(bucket, true), a1, service, codec).calls == [DeleteBucket(bucket)]
  {
  }

  /** For every command that catches exceptions, a request that raises ends
      the process with exit 1, nothing on stdout and one error line carrying
      the exception's text. Only `get_policy` spares one error, the missing
      policy, which its storage wrapper turns into an empty result. */
  lemma CaughtFailureExitsOne(cmd: Command, confirmed: bool, service: Service, codec: Codec)
    requires cmd.Create? || cmd.Delete? || cmd.UploadFromUrl? || cmd.SetAccess? || cmd.MakePublic? || cmd.GetPolicy?
    ensures var t := Run(cmd, confirmed, service, codec);
            t.calls != [] && service(t.calls[0]).Raised?
            && (cmd.GetPolicy? ==> !IsMissingPolicy(service(t.calls[0]).error)) ==>
              t.status == Exit(1) && t.stdout == [] && t.stderr == [FailurePrefix(cmd) + service(t.calls[0]).error.text]
  {
  }

  /** A stored policy that decodes to a falsy value (`null`, `{}`) is
      reported exactly like a bucket without a policy. */
  lemma FalsyPolicyReadsAsMissing(bucket: string, stored: Service, absent: Service, codec: Codec)
    requires stored(GetBucketPolicy(bucket)).Ok? && stored(GetBucketPolicy(bucket)).value.policy.Some?
    requires codec.loads(stored(GetBucketPolicy(bucket)).value.policy.value).Parsed?
    requires !Truthy(codec.loads(stored(GetBucketPolicy(bucket)).value.policy.value).value)
    requires absent(GetBucketPolicy(bucket)).Raised? && IsMissingPolicy(absent(GetBucketPolicy(bucket)).error)
    ensures Run(GetPolicy(bucket), true, stored, codec) == Run(GetPolicy(bucket), true, absent, codec)
  {
  }

  /** One process run: the callback fetches the client before the command,
      and the command fetches it again for its request. */
  datatype Invocation = Invocation(client: Client, constructions: nat, transcript: Transcript)

  function Invoke(env: Environment, cmd: Command, confirmed: bool,
                  service: (Client, StorageCall) -> CallOutcome<Response>, codec: Codec): (inv: Invocation)
    ensures inv.constructions == 1
    ensures inv.client == Configure(env)
    ensures inv.transcript == Run(cmd, confirmed, c => service(Configure(env), c), codec)
  {
    var first := GetClient(env, None);
    var second := GetClient(env, first.cache);
    var count := (if first.constructed then 1 else 0) + (if second.constructed then 1 else 0);
    Invocation(second.client, count, Run(cmd, confirmed, c => service(second.client, c), codec))
  }
}
