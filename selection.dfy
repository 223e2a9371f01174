/** Backend selection (`select_server`): explicit assignment first, then the enabled
    local servers that fit the model's memory and answer their probe, ranked by
    priority, with a degraded fallback to the first enabled server. */
module Selector {
  import opened Wrappers
  import opened Config
  import opened Availability
  import opened MemoryEstimator

  const NoEnabledServers := "No enabled servers configured"
  const NilComparison := "undefined method `<=' for nil"

  /** The backend an explicit assignment names, resolved against the external hosts
      first (and then tagged with the assigned name) and the local servers second;
      a missing or disabled target resolves to nothing. */
  function ExplicitAssignment(cfg: ProxyConfig, name: Option<string>): Option<Backend>
  {
    if name.None? || name.value !in cfg.model.explicitAssignments then None
    else
      var target := cfg.model.explicitAssignments[name.value];
      var external := Lookup(cfg.externalHosts, target);
      if external.Some? && external.value.enabled then Some(external.value.(name := Some(target)))
      else
        var local := Lookup(cfg.servers, target);
        if local.Some? && local.value.enabled then Some(local.value) else None
  }

  predicate FitsMemory(b: Backend, required: real) {
    b.maxMemoryGB.None? || required <= b.maxMemoryGB.value
  }

  /** The filter of `available_servers`. */
  predicate Eligible(b: Backend, required: real, thresholdMs: Option<int>, probe: (string, nat) -> Probe) {
    b.enabled && FitsMemory(b, required) && ServerAvailable(b, thresholdMs, probe)
  }

  /** `config[:servers].select { ... }`, in configured order. */
  function Candidates(servers: seq<Entry>, required: real, thresholdMs: Option<int>,
                      probe: (string, nat) -> Probe): (cands: seq<Backend>)
    ensures forall k :: 0 <= k < |cands| ==> Eligible(cands[k], required, thresholdMs, probe)
    ensures forall k :: 0 <= k < |cands| ==> exists i :: 0 <= i < |servers| && servers[i].config == cands[k]
    ensures forall i :: 0 <= i < |servers| && Eligible(servers[i].config, required, thresholdMs, probe)
                        ==> servers[i].config in cands
  {
    if |servers| == 0 then []
    else
      var rest := Candidates(servers[1..], required, thresholdMs, probe);
      assert forall i :: 1 <= i < |servers| ==> servers[i] == servers[1..][i - 1];
      if Eligible(servers[0].config, required, thresholdMs, probe) then [servers[0].config] + rest else rest
  }

  /** `min_by { priority || 999 }`: the index of the first candidate of least rank. */
  function MinByRank(cands: seq<Backend>): (k: nat)
    requires |cands| > 0
    ensures k < |cands|
    ensures forall j :: 0 <= j < |cands| ==> Rank(cands[k]) <= Rank(cands[j])
    ensures forall j :: 0 <= j < k ==> Rank(cands[j]) > Rank(cands[k])
  {
    if |cands| == 1 then 0
    else
      var k := MinByRank(cands[1..]);
      assert forall j :: 1 <= j < |cands| ==> cands[j] == cands[1..][j - 1];
      if Rank(cands[0]) <= Rank(cands[k + 1]) then 0 else k + 1
  }

  /** `config[:servers].find { |name, server| server[:enabled] }`. */
  function FirstEnabled(servers: seq<Entry>): (r: Option<Backend>)
    ensures r.None? <==> forall i :: 0 <= i < |servers| ==> !servers[i].config.enabled
    ensures r.Some? ==> exists i :: 0 <= i < |servers| && servers[i].config == r.value && r.value.enabled
                                    && forall j :: 0 <= j < i ==> !servers[j].config.enabled
  {
    if |servers| == 0 then None
    else if servers[0].config.enabled then Some(servers[0].config)
    else
      var r := FirstEnabled(servers[1..]);
      assert forall j :: 1 <= j < |servers| ==> servers[j] == servers[1..][j - 1];
      r
  }

  /** Automatic selection for a known memory requirement (lines 79-96). */
  function Choose(servers: seq<Entry>, required: real, thresholdMs: Option<int>,
                  probe: (string, nat) -> Probe): Result<Backend>
  {
    var cands := Candidates(servers, required, thresholdMs, probe);
    if |cands| == 0 then
      var fallback := FirstEnabled(servers);
      if fallback.Some? then Ok(fallback.value) else Err(NoEnabledServers)
    else Ok(cands[MinByRank(cands)])
  }

  /** The whole of `select_server`. */
  function Selection(cfg: ProxyConfig, name: Option<string>, cache: map<string, real>,
                     catalog: (string, nat) -> CatalogReply, matches: (string, string) -> bool,
                     probe: (string, nat) -> Probe): Result<Backend>
  {
    var explicit := ExplicitAssignment(cfg, name);
    if explicit.Some? then Ok(explicit.value)
    else Choose(cfg.servers, Estimate(cfg, name, cache, catalog, matches), cfg.serverBusyThresholdMs, probe)
  }

  /** The cache after selection: an explicit assignment estimates nothing. */
  function CacheAfterSelection(cfg: ProxyConfig, name: Option<string>, cache: map<string, real>,
                               catalog: (string, nat) -> CatalogReply): map<string, real>
  {
    if ExplicitAssignment(cfg, name).Some? then cache else CacheAfterEstimate(cfg, name, cache, catalog)
  }

  /** `select_server`: the estimate is computed only when no explicit assignment applies. */
  method SelectServer(cfg: ProxyConfig, name: Option<string>, cache: map<string, real>,
                      catalog: (string, nat) -> CatalogReply, matches: (string, string) -> bool,
                      probe: (string, nat) -> Probe)
    returns (r: Result<Backend>, cache': map<string, real>)
    ensures r == Selection(cfg, name, cache, catalog, matches, probe)
    ensures cache' == CacheAfterSelection(cfg, name, cache, catalog)
  {
    var explicit := ExplicitAssignment(cfg, name);
    if explicit.Some? {
      return Ok(explicit.value), cache;
    }
    var required;
    required, cache' := GetModelMemoryRequirements(cfg, name, cache, catalog, matches);
    r := Choose(cfg.servers, required, cfg.serverBusyThresholdMs, probe);
  }

  /** An assignment to an enabled external host returns that host tagged with the
      assigned name, even when a local server of the same name is enabled; otherwise an
      enabled local server of that name is returned; a missing or disabled target gives
      nothing. */
  lemma ExplicitResolution(cfg: ProxyConfig, n: string)
    requires n in cfg.model.explicitAssignments
    ensures var t := cfg.model.explicitAssignments[n];
            var e := Lookup(cfg.externalHosts, t);
            var s := Lookup(cfg.servers, t);
            && (e.Some? && e.value.enabled ==> ExplicitAssignment(cfg, Some(n)) == Some(e.value.(name := Some(t))))
            && (!(e.Some? && e.value.enabled) && s.Some? && s.value.enabled
                ==> ExplicitAssignment(cfg, Some(n)) == Some(s.value))
            && (!(e.Some? && e.value.enabled) && !(s.Some? && s.value.enabled)
                ==> ExplicitAssignment(cfg, Some(n)).None?)
    ensures ExplicitAssignment(cfg, Some(n)).Some? ==> ExplicitAssignment(cfg, Some(n)).value.enabled
  {
  }

  /** An explicit assignment is absolute: neither the memory estimate, the cache, the
      catalogs nor the probes can change the backend it picks, and the cache is untouched. */
  lemma ExplicitAssignmentIsAbsolute(cfg: ProxyConfig, name: Option<string>,
                                     cache1: map<string, real>, catalog1: (string, nat) -> CatalogReply,
                                     matches1: (string, string) -> bool, probe1: (string, nat) -> Probe,
                                     cache2: map<string, real>, catalog2: (string, nat) -> CatalogReply,
                                     matches2: (string, string) -> bool, probe2: (string, nat) -> Probe)
    requires ExplicitAssignment(cfg, name).Some?
    ensures Selection(cfg, name, cache1, catalog1, matches1, probe1) == Ok(ExplicitAssignment(cfg, name).value)
    ensures Selection(cfg, name, cache1, catalog1, matches1, probe1) == Selection(cfg, name, cache2, catalog2, matches2, probe2)
    ensures CacheAfterSelection(cfg, name, cache1, catalog1) == cache1
  {
  }

  /** Server `i` is the one automatic selection should pick: eligible, of least rank
      among the eligible servers, and the first in configured order of that rank. */
  predicate IsBestCandidate(servers: seq<Entry>, i: int, required: real, thresholdMs: Option<int>,
                            probe: (string, nat) -> Probe)
  {
    && 0 <= i < |servers|
    && Eligible(servers[i].config, required, thresholdMs, probe)
    && (forall j :: 0 <= j < |servers| && Eligible(servers[j].config, required, thresholdMs, probe)
                    ==> Rank(servers[i].config) <= Rank(servers[j].config))
    && (forall j :: 0 <= j < i && Eligible(servers[j].config, required, thresholdMs, probe)
                    ==> Rank(servers[j].config) > Rank(servers[i].config))
  }

  lemma BestAfterIneligibleHead(servers: seq<Entry>, i: int, required: real, thresholdMs: Option<int>,
                                 probe: (string, nat) -> Probe)
    requires |servers| > 0 && !Eligible(servers[0].config, required, thresholdMs, probe)
    requires IsBestCandidate(servers[1..], i, required, thresholdMs, probe)
    ensures IsBestCandidate(servers, i + 1, required, thresholdMs, probe)
  {
    assert forall j :: 1 <= j < |servers| ==> servers[j] == servers[1..][j - 1];
  }

  lemma BestIsHead(servers: seq<Entry>, required: real, thresholdMs: Option<int>, probe: (string, nat) -> Probe)
    requires |servers| > 0 && Eligible(servers[0].config, required, thresholdMs, probe)
    requires forall k :: 0 <= k < |Candidates(servers[1..], required, thresholdMs, probe)|
                         ==> Rank(servers[0].config) <= Rank(Candidates(servers[1..], required, thresholdMs, probe)[k])
    ensures IsBestCandidate(servers, 0, required, thresholdMs, probe)
  {
    var rest := servers[1..];
    var restCands := Candidates(rest, required, thresholdMs, probe);
    forall j | 0 < j < |servers| && Eligible(servers[j].config, required, thresholdMs, probe)
      ensures Rank(servers[0].config) <= Rank(servers[j].config)
    {
      assert servers[j] == rest[j - 1];
      assert servers[j].config in restCands;
    }
  }

  lemma BestInTail(servers: seq<Entry>, i: int, required: real, thresholdMs: Option<int>,
                   probe: (string, nat) -> Probe)
    requires |servers| > 0 && Eligible(servers[0].config, required, thresholdMs, probe)
    requires IsBestCandidate(servers[1..], i, required, thresholdMs, probe)
    requires Rank(servers[1..][i].config) < Rank(servers[0].config)
    ensures IsBestCandidate(servers, i + 1, required, thresholdMs, probe)
  {
    assert forall j :: 1 <= j < |servers| ==> servers[j] == servers[1..][j - 1];
  }

  /** The candidate `min_by` picks is the best candidate. */
  lemma {:induction false} MinCandidateIsBest(servers: seq<Entry>, required: real, thresholdMs: Option<int>,
                                              probe: (string, nat) -> Probe)
    requires |Candidates(servers, required, thresholdMs, probe)| > 0
    ensures var cands := Candidates(servers, required, thresholdMs, probe);
            exists i :: IsBestCandidate(servers, i, required, thresholdMs, probe)
                        && cands[MinByRank(cands)] == servers[i].config
    decreases |servers|
  {
    var cands := Candidates(servers, required, thresholdMs, probe);
    var rest := servers[1..];
    var restCands := Candidates(rest, required, thresholdMs, probe);
    var s0 := servers[0].config;
    if !Eligible(s0, required, thresholdMs, probe) {
      assert cands == restCands;
      MinCandidateIsBest(rest, required, thresholdMs, probe);
      var i :| IsBestCandidate(rest, i, required, thresholdMs, probe)
               && restCands[MinByRank(restCands)] == rest[i].config;
      BestAfterIneligibleHead(servers, i, required, thresholdMs, probe);
      assert cands[MinByRank(cands)] == servers[i + 1].config;
    } else if |restCands| == 0 {
      assert cands == [s0];
      BestIsHead(servers, required, thresholdMs, probe);
    } else {
      assert cands == [s0] + restCands;
      assert cands[1..] == restCands;
      var k := MinByRank(restCands);
      if Rank(s0) <= Rank(restCands[k]) {
        assert MinByRank(cands) == 0;
        BestIsHead(servers, required, thresholdMs, probe);
      } else {
        assert MinByRank(cands) == k + 1;
        MinCandidateIsBest(rest, required, thresholdMs, probe);
        var i :| IsBestCandidate(rest, i, required, thresholdMs, probe)
                 && restCands[k] == rest[i].config;
        BestInTail(servers, i, required, thresholdMs, probe);
        assert cands[MinByRank(cands)] == servers[i + 1].config;
      }
    }
  }

  /** When some server passes the filter, automatic selection returns the best
      candidate: enabled, within its memory ceiling, available, of least priority
      (nil counting as 999), ties going to the first configured. */
  lemma ChooseBest(servers: seq<Entry>, required: real, thresholdMs: Option<int>,
                   probe: (string, nat) -> Probe)
    requires exists i :: 0 <= i < |servers| && Eligible(servers[i].config, required, thresholdMs, probe)
    ensures exists i :: IsBestCandidate(servers, i, required, thresholdMs, probe)
                        && Choose(servers, required, thresholdMs, probe) == Ok(servers[i].config)
  {
    var i0 :| 0 <= i0 < |servers| && Eligible(servers[i0].config, required, thresholdMs, probe);
    assert servers[i0].config in Candidates(servers, required, thresholdMs, probe);
    MinCandidateIsBest(servers, required, thresholdMs, probe);
  }

  /** When no server passes the filter, the first enabled server in configured order is
      returned regardless of memory and availability, and an error is raised only when
      no server is enabled. */
  lemma DegradedFallback(servers: seq<Entry>, required: real, thresholdMs: Option<int>,
                         probe: (string, nat) -> Probe)
    requires forall i :: 0 <= i < |servers| ==> !Eligible(servers[i].config, required, thresholdMs, probe)
    ensures (forall i :: 0 <= i < |servers| ==> !servers[i].config.enabled)
        <==> Choose(servers, required, thresholdMs, probe) == Err(NoEnabledServers)
    ensures forall i :: 0 <= i < |servers| && servers[i].config.enabled
                        && (forall j :: 0 <= j < i ==> !servers[j].config.enabled)
                        ==> Choose(servers, required, thresholdMs, probe) == Ok(servers[i].config)
  {
    forall i | 0 <= i < |servers| && servers[i].config.enabled
               && (forall j :: 0 <= j < i ==> !servers[j].config.enabled)
      ensures Choose(servers, required, thresholdMs, probe) == Ok(servers[i].config)
    {
      var r := FirstEnabled(servers);
      var k :| 0 <= k < |servers| && servers[k].config == r.value && r.value.enabled
               && forall j :: 0 <= j < k ==> !servers[j].config.enabled;
      assert !(k < i) && !(i < k);
    }
  }

  /** Selection fails exactly when no explicit assignment applies and no local server is
      enabled; whatever automatic selection returns is an enabled local server, never an
      external host. */
  lemma SelectionOutcome(cfg: ProxyConfig, name: Option<string>, cache: map<string, real>,
                         catalog: (string, nat) -> CatalogReply, matches: (string, string) -> bool,
                         probe: (string, nat) -> Probe)
    ensures Selection(cfg, name, cache, catalog, matches, probe).Err?
        <==> ExplicitAssignment(cfg, name).None? && forall i :: 0 <= i < |cfg.servers| ==> !cfg.servers[i].config.enabled
    ensures ExplicitAssignment(cfg, name).None? && Selection(cfg, name, cache, catalog, matches, probe).Ok?
        ==> exists i :: 0 <= i < |cfg.servers| && cfg.servers[i].config.enabled
                        && Selection(cfg, name, cache, catalog, matches, probe).value == cfg.servers[i].config
  {
    var required := Estimate(cfg, name, cache, catalog, matches);
    var cands := Candidates(cfg.servers, required, cfg.serverBusyThresholdMs, probe);
    if |cands| > 0 {
      var k := MinByRank(cands);
      assert Eligible(cands[k], required, cfg.serverBusyThresholdMs, probe);
      var i :| 0 <= i < |cfg.servers| && cfg.servers[i].config == cands[k];
      assert cfg.servers[i].config.enabled;
    }
  }

  /** The local servers of the controller's test suite. */
  const HighPerformance := Backend(Some("high_performance"), "localhost", 11435, None, true, Some(1), None, None)
  const Legacy := Backend(Some("legacy"), "localhost", 11436, None, true, Some(2), Some(8.0), None)
  const TestServers := [Entry("high_performance", HighPerformance), Entry("legacy", Legacy)]

  /** Both servers answer at once. */
  function Healthy(host: string, port: nat): Probe {
    ProbeReplied(true, 0.0)
  }

  /** `high_performance` refuses connections. */
  function HighPerformanceDown(host: string, port: nat): Probe {
    if port == 11435 then ProbeRaised else ProbeReplied(true, 0.0)
  }

  /** Priority 1 beats priority 2 when both are healthy and fit. */
  lemma PriorityOneByDefault()
    ensures Choose(TestServers, 4.5, Some(1000), Healthy) == Ok(HighPerformance)
  {
    var s := TestServers;
    assert s[1..] == [s[1]] && s[1..][1..] == [];
    assert Candidates(s[1..][1..], 4.5, Some(1000), Healthy) == [];
    assert Candidates(s[1..], 4.5, Some(1000), Healthy) == [Legacy];
    assert Candidates(s, 4.5, Some(1000), Healthy) == [HighPerformance, Legacy];
  }

  /** A 15 GB model skips the 8 GB server. */
  lemma MemoryCeilingRespected()
    ensures Choose(TestServers, 15.0, Some(1000), Healthy) == Ok(HighPerformance)
  {
    var s := TestServers;
    assert s[1..] == [s[1]] && s[1..][1..] == [];
    assert Candidates(s[1..][1..], 15.0, Some(1000), Healthy) == [];
    assert Candidates(s[1..], 15.0, Some(1000), Healthy) == [];
    assert Candidates(s, 15.0, Some(1000), Healthy) == [HighPerformance];
  }

  /** Priority 2 wins when priority 1 is unavailable. */
  lemma FallsBackWhenUnavailable()
    ensures Choose(TestServers, 4.5, Some(1000), HighPerformanceDown) == Ok(Legacy)
  {
    var s := TestServers;
    assert s[1..] == [s[1]] && s[1..][1..] == [];
    assert !ServerAvailable(HighPerformance, Some(1000), HighPerformanceDown);
    assert Candidates(s[1..][1..], 4.5, Some(1000), HighPerformanceDown) == [];
    assert Candidates(s[1..], 4.5, Some(1000), HighPerformanceDown) == [Legacy];
    assert Candidates(s, 4.5, Some(1000), HighPerformanceDown) == [Legacy];
  }

  /** `gpt-4` is assigned to `openai`, which the test configuration does not define, so
      it is selected automatically. */
  lemma UnconfiguredAssignmentFallsThrough(cfg: ProxyConfig, cache: map<string, real>,
                                           catalog: (string, nat) -> CatalogReply, matches: (string, string) -> bool,
                                           probe: (string, nat) -> Probe)
    requires cfg.servers == TestServers && cfg.externalHosts == []
    requires cfg.model.explicitAssignments == map["gpt-4" := "openai"]
    ensures Selection(cfg, Some("gpt-4"), cache, catalog, matches, probe)
            == Choose(TestServers, Estimate(cfg, Some("gpt-4"), cache, catalog, matches), cfg.serverBusyThresholdMs, probe)
  {
    assert TestServers[1..][1..] == [];
    assert Lookup(TestServers, "openai").None?;
  }

  /** The filter exactly as written: with a nil memory requirement the comparison
      `nil <= max_memory_gb` raises as soon as an enabled server has a ceiling. */
  function ChooseAsWritten(servers: seq<Entry>, required: Option<real>, thresholdMs: Option<int>,
                           probe: (string, nat) -> Probe): Result<Backend>
  {
    if required.None? && exists i :: 0 <= i < |servers| && servers[i].config.enabled && servers[i].config.maxMemoryGB.Some?
    then Err(NilComparison)
    else Choose(servers, required.GetOr(0.0), thresholdMs, probe)
  }

  /** `select_server` exactly as written, on the source's estimate. */
  function SelectionAsWritten(cfg: ProxyConfig, name: Option<string>, cache: map<string, real>,
                              catalog: (string, nat) -> CatalogReply, matches: (string, string) -> bool,
                              probe: (string, nat) -> Probe): Result<Backend>
  {
    var explicit := ExplicitAssignment(cfg, name);
    if explicit.Some? then Ok(explicit.value)
    else ChooseAsWritten(cfg.servers, EstimateAsWritten(cfg, name, cache, catalog, matches), cfg.serverBusyThresholdMs, probe)
  }

  /** With no ceiling on any enabled server, the memory requirement does not matter. */
  lemma {:induction false} CandidatesIgnoreRequired(servers: seq<Entry>, r1: real, r2: real,
                                                    thresholdMs: Option<int>, probe: (string, nat) -> Probe)
    requires forall i :: 0 <= i < |servers| && servers[i].config.enabled ==> servers[i].config.maxMemoryGB.None?
    ensures Candidates(servers, r1, thresholdMs, probe) == Candidates(servers, r2, thresholdMs, probe)
    decreases |servers|
  {
    if |servers| > 0 {
      assert forall j :: 1 <= j < |servers| ==> servers[j] == servers[1..][j - 1];
      CandidatesIgnoreRequired(servers[1..], r1, r2, thresholdMs, probe);
    }
  }

  /** The source's selection and the corrected one disagree exactly when the model name
      is nil, no explicit assignment applies (a nil name has none), no default memory is
      configured, and some enabled server has a memory ceiling; the source then raises. */
  lemma SelectionAsWrittenDiffers(cfg: ProxyConfig, name: Option<string>, cache: map<string, real>,
                                  catalog: (string, nat) -> CatalogReply, matches: (string, string) -> bool,
                                  probe: (string, nat) -> Probe)
    ensures SelectionAsWritten(cfg, name, cache, catalog, matches, probe) != Selection(cfg, name, cache, catalog, matches, probe)
        <==> name.None? && cfg.model.defaultMemoryGB.None?
             && exists i :: 0 <= i < |cfg.servers| && cfg.servers[i].config.enabled && cfg.servers[i].config.maxMemoryGB.Some?
    ensures SelectionAsWritten(cfg, name, cache, catalog, matches, probe) != Selection(cfg, name, cache, catalog, matches, probe)
        ==> SelectionAsWritten(cfg, name, cache, catalog, matches, probe) == Err(NilComparison)
            && Selection(cfg, name, cache, catalog, matches, probe).Ok?
  {
    var ceiling := exists i :: 0 <= i < |cfg.servers| && cfg.servers[i].config.enabled && cfg.servers[i].config.maxMemoryGB.Some?;
    if name.None? && cfg.model.defaultMemoryGB.None? {
      if ceiling {
        var i :| 0 <= i < |cfg.servers| && cfg.servers[i].config.enabled && cfg.servers[i].config.maxMemoryGB.Some?;
        SelectionOutcome(cfg, name, cache, catalog, matches, probe);
      } else {
        CandidatesIgnoreRequired(cfg.servers, 0.0, Estimate(cfg, name, cache, catalog, matches),
                                 cfg.serverBusyThresholdMs, probe);
      }
    }
  }

  /** The input that shows it: the test suite's servers, no `default_memory_gb`, and a
      request without a model name (e.g. `GET /api/tags`). */
  lemma NilModelWithoutDefaultRaises(cfg: ProxyConfig, cache: map<string, real>,
                                     catalog: (string, nat) -> CatalogReply, matches: (string, string) -> bool,
                                     probe: (string, nat) -> Probe)
    requires cfg.servers == TestServers
    requires cfg.model.defaultMemoryGB.None?
    ensures EstimateAsWritten(cfg, None, cache, catalog, matches).None?
    ensures SelectionAsWritten(cfg, None, cache, catalog, matches, probe) == Err(NilComparison)
    ensures Estimate(cfg, None, cache, catalog, matches) == 4.5
    ensures Selection(cfg, None, cache, catalog, matches, probe).Ok?
  {
    assert cfg.servers[1].config.enabled && cfg.servers[1].config.maxMemoryGB.Some?;
    SelectionOutcome(cfg, None, cache, catalog, matches, probe);
  }
}
