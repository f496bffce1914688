/** The command-line tool's client handle: configured from the environment
    the first time it is needed and reused afterwards. */
module Session {
  import opened Outcomes

  const DefaultRegion := "us-east-1"

  /** The process environment. */
  type Environment = map<string, string>

  /** An opaque client handle: the configuration the storage SDK was given. */
  datatype Client = Client(
    accessKeyId: Option<string>,
    secretAccessKey: Option<string>,
    regionName: string,
    endpointUrl: Option<string>,
    sessionToken: Option<string>)

  /** `os.getenv(name)`. */
  function GetEnv(env: Environment, name: string): (r: Option<string>)
    ensures r.Some? <==> name in env
    ensures r.Some? ==> r.value == env[name]
  {
    if name in env then Some(env[name]) else None
  }

  /** The client configured from the environment. The region falls back to
      `us-east-1` only when the variable is unset; a set but empty value is
      kept. */
  function Configure(env: Environment): (c: Client)
    ensures "AWS_REGION_NAME" !in env ==> c.regionName == "us-east-1"
    ensures "AWS_REGION_NAME" in env ==> c.regionName == env["AWS_REGION_NAME"]
    ensures c.accessKeyId.Some? <==> "AWS_ACCESS_KEY_ID" in env
    ensures c.secretAccessKey.Some? <==> "AWS_SECRET_ACCESS_KEY" in env
    ensures c.endpointUrl.Some? <==> "AWS_ENDPOINT_URL" in env
    ensures c.sessionToken.Some? <==> "AWS_SESSION_TOKEN" in env
  {
    Client(
      GetEnv(env, "AWS_ACCESS_KEY_ID"),
      GetEnv(env, "AWS_SECRET_ACCESS_KEY"),
      GetEnv(env, "AWS_REGION_NAME").GetOr(DefaultRegion),
      GetEnv(env, "AWS_ENDPOINT_URL"),
      GetEnv(env, "AWS_SESSION_TOKEN"))
  }

  /** The answer of `get_client`: the handle, the cache afterwards, and
      whether a handle was constructed by this call. */
  datatype ClientLookup = ClientLookup(client: Client, cache: Option<Client>, constructed: bool)

  /** `get_client`: builds the handle only when none is cached. */
  function GetClient(env: Environment, cache: Option<Client>): (l: ClientLookup)
    ensures l.cache == Some(l.client)
    ensures l.constructed <==> cache.None?
    ensures cache.Some? ==> l.client == cache.value
    ensures cache.None? ==> l.client == Configure(env)
  {
    match cache
    case Some(c) => ClientLookup(c, cache, false)
    case None =>
      var c := Configure(env);
      ClientLookup(c, Some(c), true)
  }

  /** Once a handle exists, later calls return it unchanged, construct
      nothing, and do not look at the environment again. */
  lemma GetClientReuses(env: Environment, later: Environment)
    ensures var first := GetClient(env, None);
            var second := GetClient(later, first.cache);
            second.client == first.client && second.cache == first.cache && !second.constructed
  {
  }
}
