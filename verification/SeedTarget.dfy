/** Whether the row the upgrade writes is one the validator lets its operator edit. */
module SeedTarget {
  import opened Wrappers
  import opened Text
  import Migration
  import opened Targets

  /** The seed as it stands in the targets table. */
  function Row(seed: Migration.Seed): Target {
    Target(1, seed.name, seed.provider, seed.serverId, seed.endpoint, false, true, true,
           None, None, None, None, None, false, None, None, 0)
  }

  function FetchableIn(env: Env): string -> bool {
    endpoint => Fetchable(env, endpoint)
  }

  /** A legacy LibreSpeed address that can be fetched, on a host the validator refuses. */
  predicate UnsafeBackend(env: Env, values: map<string, string>) {
    && "provider" in values && values["provider"] == "libre"
    && Migration.Chosen(values, "libreUrl").Some?
    && Fetchable(env, Migration.Chosen(values, "libreUrl").value)
    && !env.safeHost(env.parse(Migration.Chosen(values, "libreUrl").value).value.host)
  }

  /** A server id kept for the one provider that has no servers to pin. */
  predicate PinnedCloudflare(values: map<string, string>) {
    && "provider" in values && values["provider"] == "cloudflare"
    && Migration.Chosen(values, "cloudflareId").Some? && IsDigits(Migration.Chosen(values, "cloudflareId").value)
  }

  lemma NamesFit()
    ensures Trim("Ookla") == "Ookla" && Trim("LibreSpeed") == "LibreSpeed" && Trim("Cloudflare") == "Cloudflare"
  {
    assert TrimStart("Ookla") == "Ookla" && TrimStart("LibreSpeed") == "LibreSpeed"
           && TrimStart("Cloudflare") == "Cloudflare";
  }

  /**
   Exactly when the seed is a row its operator can go on editing: its backend's
   host is one the validator allows, and no server is pinned for Cloudflare. The
   protocol and the digits, which are all the upgrade looks at, are not enough.
   */
  lemma SeedAcceptedIff(env: Env, values: map<string, string>)
    requires Migration.SeedTarget(values, FetchableIn(env)).Some?
    ensures Accepted(env, Row(Migration.SeedTarget(values, FetchableIn(env)).value))
            <==> !UnsafeBackend(env, values) && !PinnedCloudflare(values)
  {
    NamesFit();
    var seed := Migration.SeedTarget(values, FetchableIn(env)).value;
    var provider := values["provider"];
    assert seed.provider == provider && Migration.DisplayName(provider) == Some(seed.name);
    assert "ookla" + "Id" == "ooklaId" && "libre" + "Id" == "libreId" && "cloudflare" + "Id" == "cloudflareId";
  }

  /** A row whose endpoint is refused is refused every patch that names neither it nor the provider. */
  lemma RefusedEndpointSticks(env: Env, current: Target, fields: Fields)
    requires TakesEndpoint(current.provider) && EndpointProblem(env, current.provider, current.endpoint).Some?
    requires fields.provider.None? && fields.endpoint.None?
    ensures !Accepted(env, Patched(current, fields))
  {
    var after := Patched(current, fields);
    assert after.provider == current.provider && after.endpoint == current.endpoint;
  }

  lemma UnsafeSeed(env: Env, values: map<string, string>)
    requires UnsafeBackend(env, values)
    ensures var seed := Migration.SeedTarget(values, FetchableIn(env));
            && seed.Some? && seed.value.provider == "libre"
              && seed.value.endpoint == Migration.Chosen(values, "libreUrl")
            && EndpointProblem(env, seed.value.provider, seed.value.endpoint).Some?
  {
  }

  /**
   A fetchable address on a refused host is written as a row that stays refused:
   whatever its operator patches, short of the address or the provider.
   */
  lemma UnsafeSeedCannotBeEdited(env: Env, values: map<string, string>, fields: Fields)
    requires UnsafeBackend(env, values) && fields.provider.None? && fields.endpoint.None?
    ensures var seed := Migration.SeedTarget(values, FetchableIn(env));
            seed.Some? && !Accepted(env, Patched(Row(seed.value), fields))
  {
    UnsafeSeed(env, values);
    RefusedEndpointSticks(env, Row(Migration.SeedTarget(values, FetchableIn(env)).value), fields);
  }

  // ------------------------------------------------------------ such a seed exists

  const OWN_BACKEND := "http://127.0.0.1:8080"

  const LEGACY_KEYS := map["provider" := "libre", "libreUrl" := OWN_BACKEND]

  /** A parser that knows one address, and the host policy that refuses the server's own machine. */
  const LOOPBACK_REFUSED := Env(url => if url == OWN_BACKEND then Some(Url("http:", "127.0.0.1")) else None,
                                host => host != "127.0.0.1", _ => false, _ => false)

  /** A backend on the server's own machine, as older versions took it, is written and then refused. */
  lemma LoopbackSeedIsRefused()
    ensures UnsafeBackend(LOOPBACK_REFUSED, LEGACY_KEYS)
    ensures var seed := Migration.SeedTarget(LEGACY_KEYS, FetchableIn(LOOPBACK_REFUSED));
            && seed == Some(Migration.Seed("LibreSpeed", "libre", None, Some(OWN_BACKEND)))
            && TargetProblem(LOOPBACK_REFUSED, Row(seed.value)) == Some(BadEndpoint)
  {
    NamesFit();
    assert OWN_BACKEND != "" && OWN_BACKEND != "none" && "libre" + "Id" == "libreId";
    assert Migration.Chosen(LEGACY_KEYS, "libreUrl") == Some(OWN_BACKEND);
    assert Migration.Chosen(LEGACY_KEYS, "libreId") == None;
  }
}
