/** The storage operations of the core module. Each operation is one request
    to the storage service followed by a classification of its outcome; the
    request builders and the classifiers are modelled separately, and the
    service itself is an opaque function from request to outcome. */
module Storage {
  import opened Outcomes
  import opened Json

  const NoSuchBucketPolicy := "NoSuchBucketPolicy"

  /** The body of `CreateBucketConfiguration`. */
  datatype LocationConfig = CreateBucketConfiguration(locationConstraint: string)

  /** A request sent to the storage service, with the arguments it carries. */
  datatype StorageCall =
    | ListBuckets
    | CreateBucket(bucket: string, configuration: Option<LocationConfig>)
    | DeleteBucket(bucket: string)
    | HeadBucket(bucket: string)
    | PutObjectAcl(bucket: string, key: string, acl: string)
    | PutBucketPolicy(bucket: string, policy: string)
    | GetBucketPolicy(bucket: string)
    | FetchAndUpload(url: string, bucket: string, key: string)  // the whole download-then-upload step

  /** The fields of a service response that the operations read: `Buckets`
      (the bucket names) and `Policy` (the policy text). Either may be absent. */
  datatype Response = Response(buckets: Option<seq<string>>, policy: Option<string>)

  /** The storage service: what it answers to each request. */
  type Service = StorageCall -> CallOutcome<Response>

  /** A policy as handed to `create_bucket_policy`: a dictionary, or text
      that is already serialised. */
  datatype PolicyArg = DictPolicy(members: seq<(string, Value)>) | TextPolicy(text: string)

  /** `list_buckets`: the names of the listed buckets, in the service's order;
      a missing `Buckets` field is an empty list, and any error is re-raised. */
  function ListBucketNames(o: CallOutcome<Response>): (r: CallOutcome<seq<string>>)
    ensures r.Ok? <==> o.Ok?
    ensures o.Raised? ==> r.error == o.error
    ensures o.Ok? && o.value.buckets.Some? ==> r.value == o.value.buckets.value
    ensures o.Ok? && o.value.buckets.None? ==> r.value == []
  {
    match o
    case Ok(resp) => Ok(resp.buckets.GetOr([]))
    case Raised(e) => Raised(e)
  }

  /** The request `create_bucket` sends: a location constraint exactly when a
      region is given (an empty region string is still given). */
  function CreateBucketRequest(bucket: string, region: Option<string>): (c: StorageCall)
    ensures c.CreateBucket? && c.bucket == bucket
    ensures c.configuration.Some? <==> region.Some?
    ensures region.Some? ==> c.configuration.value.locationConstraint == region.value
  {
    match region
    case None => CreateBucket(bucket, None)
    case Some(location) => CreateBucket(bucket, Some(CreateBucketConfiguration(location)))
  }

  /** Distinct bucket names or regions give distinct requests; in particular
      a given empty region is not the absent one. */
  lemma CreateBucketRequestKeepsArguments(b1: string, r1: Option<string>, b2: string, r2: Option<string>)
    requires CreateBucketRequest(b1, r1) == CreateBucketRequest(b2, r2)
    ensures b1 == b2 && r1 == r2
  {
  }

  /** The result of the operations that return `True` once the request went
      through and re-raise whatever it raised: `create_bucket`,
      `delete_bucket`, `set_object_access_policy`, `create_bucket_policy` and
      the download-and-upload step. */
  function Acknowledge(o: CallOutcome<Response>): (r: CallOutcome<bool>)
    ensures r.Ok? <==> o.Ok?
    ensures r.Ok? ==> r.value
    ensures o.Raised? ==> r.error == o.error
  {
    match o
    case Ok(_) => Ok(true)
    case Raised(e) => Raised(e)
  }

  /** `bucket_exists`: true when the head request succeeds, false for every
      client error whatever its code, and any other exception propagates. */
  function BucketExists(o: CallOutcome<Response>): (r: CallOutcome<bool>)
    ensures r == Ok(true) <==> o.Ok?
    ensures r == Ok(false) <==> o.Raised? && o.error.ClientError?
    ensures r.Raised? <==> o.Raised? && o.error.OtherError?
    ensures r.Raised? ==> r.error == o.error
  {
    match o
    case Ok(_) => Ok(true)
    case Raised(ClientError(_, _)) => Ok(false)
    case Raised(e) => Raised(e)
  }

  /** The `Policy` text `create_bucket_policy` sends: a dictionary is
      serialised first, text is forwarded unchanged. */
  function PolicyText(policy: PolicyArg, dumps: Value -> string): (t: string)
    ensures policy.DictPolicy? ==> t == dumps(JObj(policy.members))
    ensures policy.TextPolicy? ==> t == policy.text
  {
    match policy
    case DictPolicy(members) => dumps(JObj(members))
    case TextPolicy(text) => text
  }

  /** The request `create_bucket_policy` sends to the given bucket. */
  function CreateBucketPolicyRequest(bucket: string, policy: PolicyArg, dumps: Value -> string): (c: StorageCall)
    ensures c.PutBucketPolicy? && c.bucket == bucket
    ensures c.policy == PolicyText(policy, dumps)
  {
    PutBucketPolicy(bucket, PolicyText(policy, dumps))
  }

  /** Handing over a dictionary and handing over its serialisation send the
      same request. */
  lemma DictAndSerialisedPolicyAgree(bucket: string, members: seq<(string, Value)>, dumps: Value -> string)
    ensures CreateBucketPolicyRequest(bucket, DictPolicy(members), dumps)
         == CreateBucketPolicyRequest(bucket, TextPolicy(dumps(JObj(members))), dumps)
  {
  }

  /** A client error carrying `NoSuchBucketPolicy`. */
  predicate IsMissingPolicy(e: Error) {
    e.ClientError? && e.code == NoSuchBucketPolicy
  }

  /** `read_bucket_policy`: the parsed `Policy` text on success; `None` for a
      `NoSuchBucketPolicy` client error; every other error re-raised. Reading
      the absent `Policy` field raises a KeyError, and text the parser rejects
      raises its decoding error. */
  function ReadBucketPolicy(o: CallOutcome<Response>, loads: string -> Decoded): (r: CallOutcome<Option<Value>>)
    ensures r == Ok(None) <==> o.Raised? && IsMissingPolicy(o.error)
    ensures o.Raised? && !IsMissingPolicy(o.error) ==> r == Raised(o.error)
    ensures o.Ok? && o.value.policy.Some? && loads(o.value.policy.value).Parsed? ==>
              r == Ok(Some(loads(o.value.policy.value).value))
    ensures o.Ok? && o.value.policy.Some? && loads(o.value.policy.value).Malformed? ==>
              r == Raised(OtherError(loads(o.value.policy.value).text))
    ensures o.Ok? && o.value.policy.None? ==> r.Raised? && r.error.OtherError?
  {
    match o
    case Ok(resp) =>
      (match resp.policy
       case None => Raised(OtherError("'Policy'"))
       case Some(text) =>
         (match loads(text)
          case Parsed(v) => Ok(Some(v))
          case Malformed(msg) => Raised(OtherError(msg))))
    case Raised(e) =>
      if IsMissingPolicy(e) then Ok(None) else Raised(e)
  }

  /** The missing-policy error is the one error `read_bucket_policy` never
      raises; a client error is re-raised only when the service raised it. */
  lemma ReadBucketPolicyAbsorbsOnlyMissingPolicy(o: CallOutcome<Response>, loads: string -> Decoded)
    ensures ReadBucketPolicy(o, loads).Raised? ==> !IsMissingPolicy(ReadBucketPolicy(o, loads).error)
    ensures ReadBucketPolicy(o, loads).Raised? && ReadBucketPolicy(o, loads).error.ClientError? ==>
              o == Raised(ReadBucketPolicy(o, loads).error)
  {
  }
}
