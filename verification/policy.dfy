/** The public-read bucket policy builder (`generate_public_read_policy`) and
    the dictionary it is rendered as before serialisation. */
module Policy {
  import opened Outcomes
  import opened Json

  const PolicyVersion := "2012-10-17"
  const ArnPrefix := "arn:aws:s3:::"

  /** One statement of an access policy document. */
  datatype Statement = Statement(
    sid: string,
    effect: string,
    principal: string,
    action: seq<string>,
    resource: string)

  /** An access policy document: a version and an ordered list of statements. */
  datatype Document = Document(version: string, statement: seq<Statement>)

  /** The object resource the policy grants: every object of the bucket, or
      every object under `prefix` when one is given. */
  function ObjectResource(bucket: string, prefix: string): string {
    var resource := ArnPrefix + bucket;
    if prefix != "" then resource + "/" + prefix + "/*" else resource + "/*"
  }

  /** The policy letting anyone read the bucket's objects (under `prefix`). */
  function GeneratePublicReadPolicy(bucket: string, prefix: string): (d: Document)
    ensures d.version == "2012-10-17"
    ensures |d.statement| == 1
    ensures d.statement[0].sid == "PublicRead"
    ensures d.statement[0].effect == "Allow"
    ensures d.statement[0].principal == "*"
    ensures d.statement[0].action == ["s3:GetObject"]
    ensures prefix != "" ==> d.statement[0].resource == "arn:aws:s3:::" + bucket + "/" + prefix + "/*"
    ensures prefix == "" ==> d.statement[0].resource == "arn:aws:s3:::" + bucket + "/*"
  {
    Document(PolicyVersion, [Statement("PublicRead", "Allow", "*", ["s3:GetObject"], ObjectResource(bucket, prefix))])
  }

  // ---------------------------------------------------------------------------
  // Reading a resource string back

  /** The first position of `c` in `s`, if any. */
  function IndexOf(s: string, c: char): (r: Option<nat>)
    ensures r.Some? ==> r.value < |s| && s[r.value] == c
    ensures r.Some? ==> forall i :: 0 <= i < r.value ==> s[i] != c
    ensures r.None? ==> c !in s
  {
    if |s| == 0 then None
    else if s[0] == c then Some(0)
    else match IndexOf(s[1..], c)
      case None => None
      case Some(i) => Some(i + 1)
  }

  /** Recovers (bucket, prefix) from an object resource: strips the ARN prefix
      and the trailing slash-star, then splits at the first `/`. */
  function ParseResource(r: string): Option<(string, string)> {
    if |r| < |ArnPrefix| + 2 || r[..|ArnPrefix|] != ArnPrefix || r[|r| - 2..] != "/*" then None
    else
      var body := r[|ArnPrefix|..|r| - 2];
      match IndexOf(body, '/')
      case None => Some((body, ""))
      case Some(i) => if i + 1 < |body| then Some((body[..i], body[i + 1..])) else None
  }

  lemma {:induction false} IndexOfAfter(b: string, rest: string, c: char)
    requires c !in b
    ensures IndexOf(b + [c] + rest, c) == Some(|b|)
  {
    if |b| > 0 {
      assert (b + [c] + rest)[1..] == b[1..] + [c] + rest;
      IndexOfAfter(b[1..], rest, c);
    }
  }

  /** A slash-free bucket name and any prefix can be read back from the
      resource string the builder makes for them. */
  lemma ResourceRoundTrip(bucket: string, prefix: string)
    requires '/' !in bucket
    ensures ParseResource(ObjectResource(bucket, prefix)) == Some((bucket, prefix))
  {
    var r := ObjectResource(bucket, prefix);
    assert r[..|ArnPrefix|] == ArnPrefix;
    if prefix == "" {
      assert r[|ArnPrefix|..|r| - 2] == bucket;
    } else {
      var body := r[|ArnPrefix|..|r| - 2];
      assert body == bucket + ['/'] + prefix;
      IndexOfAfter(bucket, prefix, '/');
      assert body[..|bucket|] == bucket;
      assert body[|bucket| + 1..] == prefix;
    }
  }

  /** For slash-free bucket names, distinct (bucket, prefix) pairs give
      distinct policies. */
  lemma GeneratedPolicyDeterminesTarget(b1: string, p1: string, b2: string, p2: string)
    requires '/' !in b1 && '/' !in b2
    requires GeneratePublicReadPolicy(b1, p1) == GeneratePublicReadPolicy(b2, p2)
    ensures b1 == b2 && p1 == p2
  {
    ResourceRoundTrip(b1, p1);
    ResourceRoundTrip(b2, p2);
  }

  /** No name validation is done: a bucket name holding a slash collides with
      a shorter name plus a prefix. */
  lemma SlashInBucketCollides()
    ensures GeneratePublicReadPolicy("a/b", "") == GeneratePublicReadPolicy("a", "b")
  {
    assert ObjectResource("a/b", "") == ObjectResource("a", "b");
  }

  // ---------------------------------------------------------------------------
  // The dictionary rendering and its decoder

  function StringsToJson(xs: seq<string>): (vs: seq<Value>)
    ensures |vs| == |xs|
  {
    if xs == [] then [] else [JStr(xs[0])] + StringsToJson(xs[1..])
  }

  function StringsFromJson(vs: seq<Value>): Option<seq<string>> {
    if vs == [] then Some([])
    else match (vs[0], StringsFromJson(vs[1..]))
      case (JStr(s), Some(rest)) => Some([s] + rest)
      case _ => None
  }

  /** The dictionary `{"Sid", "Effect", "Principal", "Action", "Resource"}`,
      in that key order. */
  function StatementToJson(s: Statement): Value {
    JObj([("Sid", JStr(s.sid)),
          ("Effect", JStr(s.effect)),
          ("Principal", JStr(s.principal)),
          ("Action", JArr(StringsToJson(s.action))),
          ("Resource", JStr(s.resource))])
  }

  /** Dictionary lookup: the value of the first member with key `k`. */
  function Lookup(members: seq<(string, Value)>, k: string): Option<Value> {
    if members == [] then None
    else if members[0].0 == k then Some(members[0].1)
    else Lookup(members[1..], k)
  }

  lemma {:induction false} LookupFirst(members: seq<(string, Value)>, i: nat, k: string)
    requires i < |members| && members[i].0 == k
    requires forall j :: 0 <= j < i ==> members[j].0 != k
    ensures Lookup(members, k) == Some(members[i].1)
  {
    if i > 0 {
      LookupFirst(members[1..], i - 1, k);
    }
  }

  function StatementFromJson(v: Value): Option<Statement> {
    match v
    case JObj(m) =>
      (match (Lookup(m, "Sid"), Lookup(m, "Effect"), Lookup(m, "Principal"), Lookup(m, "Action"), Lookup(m, "Resource"))
       case (Some(JStr(sid)), Some(JStr(effect)), Some(JStr(principal)), Some(JArr(acts)), Some(JStr(resource))) =>
         (match StringsFromJson(acts)
          case Some(action) => Some(Statement(sid, effect, principal, action, resource))
          case None => None)
       case _ => None)
    case _ => None
  }

  function StatementsToJson(ss: seq<Statement>): (vs: seq<Value>)
    ensures |vs| == |ss|
  {
    if ss == [] then [] else [StatementToJson(ss[0])] + StatementsToJson(ss[1..])
  }

  function StatementsFromJson(vs: seq<Value>): Option<seq<Statement>> {
    if vs == [] then Some([])
    else match (StatementFromJson(vs[0]), StatementsFromJson(vs[1..]))
      case (Some(s), Some(rest)) => Some([s] + rest)
      case _ => None
  }

  /** The dictionary `{"Version": ..., "Statement": [...]}` the builder returns. */
  function ToJson(d: Document): (v: Value)
    ensures v.JObj? && |v.members| == 2
    ensures v.members[0] == ("Version", JStr(d.version))
    ensures v.members[1].0 == "Statement" && v.members[1].1.JArr?
    ensures |v.members[1].1.items| == |d.statement|
  {
    JObj([("Version", JStr(d.version)), ("Statement", JArr(StatementsToJson(d.statement)))])
  }

  /** Reads a policy document back out of its dictionary form. */
  function FromJson(v: Value): Option<Document> {
    match v
    case JObj(m) =>
      (match (Lookup(m, "Version"), Lookup(m, "Statement"))
       case (Some(JStr(version)), Some(JArr(items))) =>
         (match StatementsFromJson(items)
          case Some(ss) => Some(Document(version, ss))
          case None => None)
       case _ => None)
    case _ => None
  }

  lemma {:induction false} StringsRoundTrip(xs: seq<string>)
    ensures StringsFromJson(StringsToJson(xs)) == Some(xs)
  {
    if xs != [] {
      StringsRoundTrip(xs[1..]);
      assert StringsToJson(xs)[1..] == StringsToJson(xs[1..]);
      assert [xs[0]] + xs[1..] == xs;
    }
  }

  lemma StatementRoundTrip(s: Statement)
    ensures StatementFromJson(StatementToJson(s)) == Some(s)
  {
    var m := StatementToJson(s).members;
    StringsRoundTrip(s.action);
    assert Lookup(m, "Sid") == Some(JStr(s.sid));
    assert Lookup(m, "Effect") == Some(JStr(s.effect));
    LookupFirst(m, 2, "Principal");
    LookupFirst(m, 3, "Action");
    LookupFirst(m, 4, "Resource");
  }

  lemma {:induction false} StatementsRoundTrip(ss: seq<Statement>)
    ensures StatementsFromJson(StatementsToJson(ss)) == Some(ss)
  {
    if ss != [] {
      StatementRoundTrip(ss[0]);
      StatementsRoundTrip(ss[1..]);
      assert StatementsToJson(ss)[1..] == StatementsToJson(ss[1..]);
      assert [ss[0]] + ss[1..] == ss;
    }
  }

  /** The dictionary rendering loses nothing: every document is read back
      exactly, so distinct documents render to distinct dictionaries. */
  lemma DocumentRoundTrip(d: Document)
    ensures FromJson(ToJson(d)) == Some(d)
  {
    var m := ToJson(d).members;
    StatementsRoundTrip(d.statement);
    assert Lookup(m, "Version") == Some(JStr(d.version));
    assert Lookup(m, "Statement") == Some(JArr(StatementsToJson(d.statement)));
  }
}
