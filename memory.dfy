/** The model memory estimator: `get_model_memory_requirements` and
    `fetch_model_memory_from_servers`. The shared model-info cache is an input map
    (model name to GB) that the fetch returns updated; the catalog request
    (`GET http://host:port/api/tags`) is a parameter giving each host and port's parsed
    reply; the regular-expression test is a parameter `matches(name, pattern)`. */
module MemoryEstimator {
  import opened Wrappers
  import opened Config

  /** One entry of a catalog's `models` list: its `name` and `size` in bytes, if given. */
  datatype CatalogModel = CatalogModel(name: Option<string>, size: Option<nat>)

  /** A catalog request either lists models, or fails: a non-success status, a raised
      exception, or a body that does not parse (all rescued alike). A reply without a
      `models` key lists none. */
  datatype CatalogReply = CatalogFailed | CatalogListed(models: seq<CatalogModel>)

  const GiB: nat := 1073741824

  /** `(size.to_f / 1024**3).round(1)` in exact arithmetic: the nearest tenth of a GB,
      halves rounded up. */
  function BytesToGB(size: nat): (gb: real)
    ensures size as real / GiB as real - 0.05 < gb <= size as real / GiB as real + 0.05
    ensures (gb * 10.0).Floor as real == gb * 10.0
  {
    var q := (size * 10 + GiB / 2) / GiB;
    assert q * GiB <= size * 10 + GiB / 2 < q * GiB + GiB;
    q as real / 10.0
  }

  /** `models.find { |m| m['name'] == model_name }`. */
  function FindModel(models: seq<CatalogModel>, name: string): (r: Option<CatalogModel>)
    ensures r.None? <==> forall i :: 0 <= i < |models| ==> models[i].name != Some(name)
    ensures r.Some? ==> exists i :: 0 <= i < |models| && models[i] == r.value && r.value.name == Some(name)
                                    && forall j :: 0 <= j < i ==> models[j].name != Some(name)
  {
    if |models| == 0 then None
    else if models[0].name == Some(name) then Some(models[0])
    else
      var r := FindModel(models[1..], name);
      assert forall j :: 1 <= j < |models| ==> models[j] == models[1..][j - 1];
      r
  }

  /** The size a catalog reply gives for `name`: that of the first entry with that name,
      when it has one. */
  function ReportedSize(reply: CatalogReply, name: string): Option<nat> {
    match reply
    case CatalogFailed => None
    case CatalogListed(models) =>
      var m := FindModel(models, name);
      if m.Some? then m.value.size else None
  }

  /** The server is enabled and its catalog reports a size for `name`. */
  predicate Reports(b: Backend, name: string, catalog: (string, nat) -> CatalogReply) {
    b.enabled && ReportedSize(catalog(b.host, b.port), name).Some?
  }

  function ReportedGB(b: Backend, name: string, catalog: (string, nat) -> CatalogReply): real
    requires Reports(b, name, catalog)
  {
    BytesToGB(ReportedSize(catalog(b.host, b.port), name).value)
  }

  /** The memory reported by the first server, in configured order, that reports the model. */
  function CatalogMemory(servers: seq<Entry>, name: string, catalog: (string, nat) -> CatalogReply): Option<real>
  {
    if |servers| == 0 then None
    else if Reports(servers[0].config, name, catalog) then Some(ReportedGB(servers[0].config, name, catalog))
    else CatalogMemory(servers[1..], name, catalog)
  }

  /** The catalog answer comes from the first enabled server whose catalog lists the model
      with a size; disabled and failing servers are skipped; with no such server it is nil. */
  lemma {:induction false} CatalogMemoryFirstReporter(servers: seq<Entry>, name: string,
                                                      catalog: (string, nat) -> CatalogReply)
    ensures CatalogMemory(servers, name, catalog).None?
        <==> forall i :: 0 <= i < |servers| ==> !Reports(servers[i].config, name, catalog)
    ensures CatalogMemory(servers, name, catalog).Some?
        ==> exists i :: 0 <= i < |servers| && Reports(servers[i].config, name, catalog)
                        && (forall j :: 0 <= j < i ==> !Reports(servers[j].config, name, catalog))
                        && CatalogMemory(servers, name, catalog).value == ReportedGB(servers[i].config, name, catalog)
  {
    if |servers| > 0 && !Reports(servers[0].config, name, catalog) {
      var rest := servers[1..];
      CatalogMemoryFirstReporter(rest, name, catalog);
      assert forall j :: 1 <= j < |servers| ==> servers[j] == rest[j - 1];
      if CatalogMemory(rest, name, catalog).Some? {
        var i :| 0 <= i < |rest| && Reports(rest[i].config, name, catalog)
                 && (forall j :: 0 <= j < i ==> !Reports(rest[j].config, name, catalog))
                 && CatalogMemory(rest, name, catalog).value == ReportedGB(rest[i].config, name, catalog);
        assert Reports(servers[i + 1].config, name, catalog);
      }
    }
  }

  /** When server `i` is the first that reports the model, the catalog answer is its size. */
  lemma {:induction false} CatalogMemoryAt(servers: seq<Entry>, name: string,
                                           catalog: (string, nat) -> CatalogReply, i: int)
    requires 0 <= i < |servers| && Reports(servers[i].config, name, catalog)
    requires forall j :: 0 <= j < i ==> !Reports(servers[j].config, name, catalog)
    ensures CatalogMemory(servers, name, catalog) == Some(ReportedGB(servers[i].config, name, catalog))
    decreases i
  {
    if i > 0 {
      var rest := servers[1..];
      assert !Reports(servers[0].config, name, catalog);
      assert forall j :: 0 <= j < i - 1 ==> rest[j] == servers[j + 1];
      CatalogMemoryAt(rest, name, catalog, i - 1);
    }
  }

  /** What the fetch returns: the cached value when caching is on and one is present,
      otherwise the catalog answer. */
  function Fetched(mc: ModelConfig, servers: seq<Entry>, name: string, cache: map<string, real>,
                   catalog: (string, nat) -> CatalogReply): Option<real>
  {
    if mc.cacheModelInfo && name in cache then Some(cache[name])
    else CatalogMemory(servers, name, catalog)
  }

  /** The cache after the fetch: a catalog answer is written when caching is on. */
  function CacheAfterFetch(mc: ModelConfig, servers: seq<Entry>, name: string, cache: map<string, real>,
                           catalog: (string, nat) -> CatalogReply): map<string, real>
  {
    if mc.cacheModelInfo && name !in cache && CatalogMemory(servers, name, catalog).Some?
    then cache[name := CatalogMemory(servers, name, catalog).value]
    else cache
  }

  /** `fetch_model_memory_from_servers`. */
  method FetchModelMemoryFromServers(cfg: ProxyConfig, name: string, cache: map<string, real>,
                                     catalog: (string, nat) -> CatalogReply)
    returns (gb: Option<real>, cache': map<string, real>)
    ensures gb == Fetched(cfg.model, cfg.servers, name, cache, catalog)
    ensures cache' == CacheAfterFetch(cfg.model, cfg.servers, name, cache, catalog)
  {
    cache' := cache;
    if cfg.model.cacheModelInfo && name in cache {
      return Some(cache[name]), cache';
    }
    var servers := cfg.servers;
    var i := 0;
    while i < |servers|
      invariant 0 <= i <= |servers|
      invariant CatalogMemory(servers[i..], name, catalog) == CatalogMemory(servers, name, catalog)
    {
      var server := servers[i].config;
      assert servers[i..][1..] == servers[i + 1..];
      if !server.enabled {
        i := i + 1;
        continue;
      }
      var reply := catalog(server.host, server.port);
      if reply.CatalogListed? {
        var info := FindModel(reply.models, name);
        if info.Some? && info.value.size.Some? {
          gb := Some(BytesToGB(info.value.size.value));
          if cfg.model.cacheModelInfo {
            cache' := cache[name := gb.value];
          }
          return;
        }
      }
      i := i + 1;
    }
    gb := None;
  }

  /** `default_memory_gb || 4.5`. */
  function DefaultMemory(mc: ModelConfig): real {
    mc.defaultMemoryGB.GetOr(4.5)
  }

  /** The `memory_gb` of the first pattern, in list order, that matches the name. */
  function FirstPatternMatch(patterns: seq<MemoryPattern>, name: string, matches: (string, string) -> bool): Option<real>
  {
    if |patterns| == 0 then None
    else if matches(name, patterns[0].pattern) then Some(patterns[0].memoryGB)
    else FirstPatternMatch(patterns[1..], name, matches)
  }

  lemma {:induction false} FirstPatternMatchIff(patterns: seq<MemoryPattern>, name: string,
                                                matches: (string, string) -> bool, gb: real)
    ensures FirstPatternMatch(patterns, name, matches) == Some(gb)
        <==> exists i :: 0 <= i < |patterns| && matches(name, patterns[i].pattern) && patterns[i].memoryGB == gb
                         && forall j :: 0 <= j < i ==> !matches(name, patterns[j].pattern)
    ensures FirstPatternMatch(patterns, name, matches).None?
        <==> forall i :: 0 <= i < |patterns| ==> !matches(name, patterns[i].pattern)
  {
    if |patterns| > 0 {
      var rest := patterns[1..];
      FirstPatternMatchIff(rest, name, matches, gb);
      assert forall j :: 1 <= j < |patterns| ==> patterns[j] == rest[j - 1];
      if !matches(name, patterns[0].pattern) {
        if FirstPatternMatch(rest, name, matches) == Some(gb) {
          var i :| 0 <= i < |rest| && matches(name, rest[i].pattern) && rest[i].memoryGB == gb
                   && forall j :: 0 <= j < i ==> !matches(name, rest[j].pattern);
          assert matches(name, patterns[i + 1].pattern) && patterns[i + 1].memoryGB == gb;
        }
      }
    }
  }

  /** The memory estimate. A nil name gives the default, or 4.5 when no default is set
      (the source omits that 4.5 for a nil name: see `EstimateAsWritten`). */
  function Estimate(cfg: ProxyConfig, name: Option<string>, cache: map<string, real>,
                    catalog: (string, nat) -> CatalogReply, matches: (string, string) -> bool): real
  {
    match name
    case None => DefaultMemory(cfg.model)
    case Some(n) =>
      if n in cfg.model.memoryOverrides then cfg.model.memoryOverrides[n]
      else
        match Fetched(cfg.model, cfg.servers, n, cache, catalog)
        case Some(gb) => gb
        case None => FirstPatternMatch(cfg.model.memoryPatterns, n, matches).GetOr(DefaultMemory(cfg.model))
  }

  /** The cache after an estimate: only a catalog fetch can change it. */
  function CacheAfterEstimate(cfg: ProxyConfig, name: Option<string>, cache: map<string, real>,
                              catalog: (string, nat) -> CatalogReply): map<string, real>
  {
    if name.None? || name.value in cfg.model.memoryOverrides then cache
    else CacheAfterFetch(cfg.model, cfg.servers, name.value, cache, catalog)
  }

  /** `get_model_memory_requirements`, with the 4.5 fallback applied to a nil name too. */
  method GetModelMemoryRequirements(cfg: ProxyConfig, name: Option<string>, cache: map<string, real>,
                                    catalog: (string, nat) -> CatalogReply, matches: (string, string) -> bool)
    returns (gb: real, cache': map<string, real>)
    ensures gb == Estimate(cfg, name, cache, catalog, matches)
    ensures cache' == CacheAfterEstimate(cfg, name, cache, catalog)
  {
    cache' := cache;
    if name.None? {
      return DefaultMemory(cfg.model), cache';
    }
    var n := name.value;
    if n in cfg.model.memoryOverrides {
      return cfg.model.memoryOverrides[n], cache';
    }
    var fetched;
    fetched, cache' := FetchModelMemoryFromServers(cfg, n, cache, catalog);
    if fetched.Some? {
      return fetched.value, cache';
    }
    var patterns := cfg.model.memoryPatterns;
    var i := 0;
    while i < |patterns|
      invariant 0 <= i <= |patterns|
      invariant FirstPatternMatch(patterns[i..], n, matches) == FirstPatternMatch(patterns, n, matches)
    {
      assert patterns[i..][1..] == patterns[i + 1..];
      if matches(n, patterns[i].pattern) {
        return patterns[i].memoryGB, cache';
      }
      i := i + 1;
    }
    gb := DefaultMemory(cfg.model);
  }

  /** An override is returned exactly, whatever the cache and the catalogs say, and
      leaves the cache alone (no catalog is fetched). */
  lemma EstimateOverrideWins(cfg: ProxyConfig, n: string,
                             cache1: map<string, real>, catalog1: (string, nat) -> CatalogReply, matches1: (string, string) -> bool,
                             cache2: map<string, real>, catalog2: (string, nat) -> CatalogReply, matches2: (string, string) -> bool)
    requires n in cfg.model.memoryOverrides
    ensures Estimate(cfg, Some(n), cache1, catalog1, matches1) == cfg.model.memoryOverrides[n]
    ensures Estimate(cfg, Some(n), cache1, catalog1, matches1) == Estimate(cfg, Some(n), cache2, catalog2, matches2)
    ensures CacheAfterEstimate(cfg, Some(n), cache1, catalog1) == cache1
  {
  }

  /** With caching on, a cached value is returned without consulting any catalog. */
  lemma EstimateCacheHit(cfg: ProxyConfig, n: string, cache: map<string, real>,
                         catalog1: (string, nat) -> CatalogReply, catalog2: (string, nat) -> CatalogReply,
                         matches: (string, string) -> bool)
    requires cfg.model.cacheModelInfo && n !in cfg.model.memoryOverrides && n in cache
    ensures Estimate(cfg, Some(n), cache, catalog1, matches) == cache[n]
    ensures Estimate(cfg, Some(n), cache, catalog1, matches) == Estimate(cfg, Some(n), cache, catalog2, matches)
    ensures CacheAfterEstimate(cfg, Some(n), cache, catalog1) == cache
  {
  }

  /** Without an override or cache hit, the first reporting server's size wins over every
      pattern; when no server reports the model, the first matching pattern decides,
      then the default. */
  lemma {:induction false} EstimateChain(cfg: ProxyConfig, n: string, cache: map<string, real>,
                                         catalog: (string, nat) -> CatalogReply, matches: (string, string) -> bool)
    requires n !in cfg.model.memoryOverrides
    requires !cfg.model.cacheModelInfo || n !in cache
    ensures forall i :: 0 <= i < |cfg.servers| && Reports(cfg.servers[i].config, n, catalog)
                        && (forall j :: 0 <= j < i ==> !Reports(cfg.servers[j].config, n, catalog))
                        ==> Estimate(cfg, Some(n), cache, catalog, matches) == ReportedGB(cfg.servers[i].config, n, catalog)
    ensures (forall i :: 0 <= i < |cfg.servers| ==> !Reports(cfg.servers[i].config, n, catalog))
        ==> Estimate(cfg, Some(n), cache, catalog, matches)
            == FirstPatternMatch(cfg.model.memoryPatterns, n, matches).GetOr(DefaultMemory(cfg.model))
  {
    CatalogMemoryFirstReporter(cfg.servers, n, catalog);
    forall i | 0 <= i < |cfg.servers| && Reports(cfg.servers[i].config, n, catalog)
               && (forall j :: 0 <= j < i ==> !Reports(cfg.servers[j].config, n, catalog))
      ensures Estimate(cfg, Some(n), cache, catalog, matches) == ReportedGB(cfg.servers[i].config, n, catalog)
    {
      CatalogMemoryAt(cfg.servers, n, catalog, i);
    }
  }

  /** A nil name is estimated like a name that no rule knows: both give the default,
      or 4.5 when no default is configured. */
  lemma EstimateNilLikeUnknown(cfg: ProxyConfig, n: string, cache: map<string, real>,
                               catalog: (string, nat) -> CatalogReply, matches: (string, string) -> bool)
    requires n !in cfg.model.memoryOverrides
    requires Fetched(cfg.model, cfg.servers, n, cache, catalog).None?
    requires forall i :: 0 <= i < |cfg.model.memoryPatterns| ==> !matches(n, cfg.model.memoryPatterns[i].pattern)
    ensures Estimate(cfg, Some(n), cache, catalog, matches) == Estimate(cfg, None, cache, catalog, matches)
    ensures Estimate(cfg, None, cache, catalog, matches) == cfg.model.defaultMemoryGB.GetOr(4.5)
  {
    FirstPatternMatchIff(cfg.model.memoryPatterns, n, matches, 0.0);
  }

  /** The cache changes only when caching is on, only at the requested name, and then
      holds the very value the estimate returned; an entry written once is read back on
      the next estimate without consulting any catalog. */
  lemma {:induction false} CacheWriteBack(cfg: ProxyConfig, name: Option<string>, cache: map<string, real>,
                                          catalog1: (string, nat) -> CatalogReply, catalog2: (string, nat) -> CatalogReply,
                                          matches: (string, string) -> bool)
    ensures !cfg.model.cacheModelInfo ==> CacheAfterEstimate(cfg, name, cache, catalog1) == cache
    ensures CacheAfterEstimate(cfg, name, cache, catalog1) != cache
        ==> cfg.model.cacheModelInfo && name.Some? && name.value !in cache
            && CacheAfterEstimate(cfg, name, cache, catalog1)
               == cache[name.value := Estimate(cfg, name, cache, catalog1, matches)]
    ensures CacheAfterEstimate(cfg, name, cache, catalog1) != cache
        ==> Estimate(cfg, name, CacheAfterEstimate(cfg, name, cache, catalog1), catalog2, matches)
            == Estimate(cfg, name, cache, catalog1, matches)
  {
  }

  /** `memory_gb` exactly as the source computes it: a nil name gives `default_memory_gb`
      itself, which is nil when no default is configured. */
  function EstimateAsWritten(cfg: ProxyConfig, name: Option<string>, cache: map<string, real>,
                             catalog: (string, nat) -> CatalogReply, matches: (string, string) -> bool): Option<real>
  {
    if name.None? then cfg.model.defaultMemoryGB
    else Some(Estimate(cfg, name, cache, catalog, matches))
  }

  /** The source's estimate differs from the corrected one exactly when the name is nil
      and no default is set; then it is nil rather than a number. */
  lemma EstimateAsWrittenDiffers(cfg: ProxyConfig, name: Option<string>, cache: map<string, real>,
                                 catalog: (string, nat) -> CatalogReply, matches: (string, string) -> bool)
    ensures EstimateAsWritten(cfg, name, cache, catalog, matches) != Some(Estimate(cfg, name, cache, catalog, matches))
        <==> name.None? && cfg.model.defaultMemoryGB.None?
    ensures EstimateAsWritten(cfg, name, cache, catalog, matches).None?
        <==> name.None? && cfg.model.defaultMemoryGB.None?
  {
  }

  /** The memory cases of the controller's test suite, and a name matching only the second
      pattern (caching off, every catalog request failing, and the regexps matching as
      `Regexp#match?` does on these names). */
  lemma EstimateExamples(cfg: ProxyConfig, cache: map<string, real>, matches: (string, string) -> bool)
    requires cfg.model == ModelConfig(map["gpt-4" := "openai"], map["custom-model" := 10.0],
                                      [MemoryPattern(".*-7b.*", 4.5), MemoryPattern(".*-70b.*", 40.0)],
                                      Some(4.5), false)
    requires matches("llama2-7b-chat", ".*-7b.*")
    requires !matches("unknown-model", ".*-7b.*") && !matches("unknown-model", ".*-70b.*")
    requires !matches("mystery-70b", ".*-7b.*") && matches("mystery-70b", ".*-70b.*")
    ensures var failing := (h: string, p: nat) => CatalogFailed;
            && Estimate(cfg, Some("custom-model"), cache, failing, matches) == 10.0
            && Estimate(cfg, Some("llama2-7b-chat"), cache, failing, matches) == 4.5
            && Estimate(cfg, Some("mystery-70b"), cache, failing, matches) == 40.0
            && Estimate(cfg, Some("unknown-model"), cache, failing, matches) == 4.5
            && Estimate(cfg, None, cache, failing, matches) == 4.5
  {
    var failing := (h: string, p: nat) => CatalogFailed;
    CatalogMemoryFirstReporter(cfg.servers, "llama2-7b-chat", failing);
    CatalogMemoryFirstReporter(cfg.servers, "unknown-model", failing);
    CatalogMemoryFirstReporter(cfg.servers, "mystery-70b", failing);
  }
}
