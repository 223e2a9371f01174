/** The read-only `ollama_proxy` configuration the routing engine consults:
    local servers and external hosts (ordered hashes of backend settings) and
    the model configuration. */
module Config {
  import opened Wrappers

  /** One backend's settings; `nil` entries are `None`. */
  datatype Backend = Backend(
    name: Option<string>,
    host: string,
    port: nat,
    protocol: Option<string>,
    enabled: bool,
    priority: Option<int>,
    maxMemoryGB: Option<real>,
    apiKeyEnv: Option<string>)

  /** One `key: {settings}` pair of an ordered configuration hash. */
  datatype Entry = Entry(key: string, config: Backend)

  /** One `{pattern:, memory_gb:}` rule of `memory_patterns`. */
  datatype MemoryPattern = MemoryPattern(pattern: string, memoryGB: real)

  /** `model_config`. An absent hash or list is an empty one here: the source
      guards each of them with `&.` or an `if`. */
  datatype ModelConfig = ModelConfig(
    explicitAssignments: map<string, string>,
    memoryOverrides: map<string, real>,
    memoryPatterns: seq<MemoryPattern>,
    defaultMemoryGB: Option<real>,
    cacheModelInfo: bool)

  datatype ProxyConfig = ProxyConfig(
    servers: seq<Entry>,
    externalHosts: seq<Entry>,
    model: ModelConfig,
    serverBusyThresholdMs: Option<int>)

  /** `hash[key]`: the settings stored under `key`, if any (keys of a Ruby hash are unique,
      so the first entry with that key is the only one). */
  function Lookup(entries: seq<Entry>, key: string): (r: Option<Backend>)
    ensures r.Some? <==> exists i :: 0 <= i < |entries| && entries[i].key == key
    ensures r.Some? ==> exists i :: 0 <= i < |entries| && entries[i].key == key && entries[i].config == r.value
  {
    if |entries| == 0 then None
    else if entries[0].key == key then Some(entries[0].config)
    else Lookup(entries[1..], key)
  }

  /** The priority `min_by` ranks a server by: `priority || 999`. */
  function Rank(b: Backend): int {
    b.priority.GetOr(999)
  }
}
