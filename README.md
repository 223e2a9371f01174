# ollama-proxy routing engine, modelled in Dafny

This project models how the ollama-proxy's `ProxyController` routes requests, and proves properties of the model. The routing engine does four things:
- It works out which model a request asks for.
- It estimates how much memory that model needs.
- It picks a backend Ollama server, or an external host.
- It rewrites the request for that backend: the target URL and the forwarded headers.

Everything the engine learns from outside becomes an input to the model:
- **Local probe** (`GET host:port/` with a 2-second timeout): a function from host and port to either "raised" or a reply carrying a success flag and an elapsed time.
- **Catalog request** (`GET host:port/api/tags`): a function from host and port to either "failed" or the list of models it returned.
- **Model-info cache** (`Rails.cache`): a map from model name to GB that the operations return updated.
- **`JSON.parse`**: a parameter that gives `None` when the parser raises.
- **`Regexp.new(p).match?`**: a parameter `matches(name, pattern)`.
- **Process environment** (`ENV`): a map.
- **Configuration** (`Rails.application.config.ollama_proxy`): an immutable value (module `Config`). Its ordered hashes of servers and external hosts are sequences of key/settings pairs in configured order.

Modules:
- `Wrappers`: `Option` and `Result`.
- `Strings`: the Ruby and ActiveSupport string operations the engine uses, in their ASCII behaviour: `include?`, `blank?`/`present?`, `upcase`/`downcase`, `split` on one character (trailing empty fields dropped), `join`, and `Integer#to_s`.
- `Config`: backend settings and the model configuration.
- `ModelName`: `extract_model_name`.
- `Availability`: `server_available?`.
- `MemoryEstimator`: `get_model_memory_requirements` and `fetch_model_memory_from_servers`. Both are written as methods with loops, and each is proved against a specification function (`Estimate`, `Fetched` and the `CacheAfter…` functions).
- `Selector`: `select_server`, with the comprehensions `select`, `min_by` and `find` as recursive functions. The method `SelectServer` is proved against `Selection`.
- `Forwarder`: `build_request_url` and `forward_headers`. Both are written as methods that grow their result, and each is proved against a specification function.

The documented design and the controller's code disagree in three places:
- **Empty model name.** The model follows the code. Only a nil model name takes the default-memory shortcut. An empty string is truthy in Ruby, so `""` goes through overrides, cache, catalog and patterns like any other name, and it is also looked up in the explicit assignments.
- **Inbound `Authorization`.** The model follows the code. The exclusion list is checked against the raw environment key, before renaming. An inbound header whose environment key is `HTTP_AUTHORIZATION_` is kept, and it is forwarded as `Authorization` (lemma `Forwarder.ExclusionBypassedByTrailingUnderscore`, which states the same for `Host` and `Version`). The promise "no inbound `Authorization` is forwarded" therefore holds only for the canonical header (`Forwarder.ExcludedHeadersDropped`).
- **Nil model name without a default.** The design says the estimate never fails and falls back to 4.5. At line 100 of the controller, a nil name returns `default_memory_gb` with no such fallback, so with no default configured the filter at line 81 raises as soon as an enabled server has a memory ceiling. This is the one place where the model's main path follows the design:
  - `MemoryEstimator.Estimate`, `MemoryEstimator.GetModelMemoryRequirements`, `Selector.Selection` and `Selector.SelectServer` apply the 4.5 fallback to a nil name.
  - The code as written is modelled by `MemoryEstimator.EstimateAsWritten` and `Selector.SelectionAsWritten`.
  - The discrepancy is proved and recorded under "## Findings".

## Model

| member | source | states |
|---|---|---|
| `ModelName.ExtractModelName` | app/controllers/proxy_controller.rb:38-53 | definition of `extract_model_name`; its properties are in the `ModelName.BodyModelIff`, `ModelName.RaisesIff`, `ModelName.ExtractionSources`, `ModelName.ParamsModel` and `ModelName.ExtractionExamples` rows |
| `Availability.ServerAvailable` | app/controllers/proxy_controller.rb:170-187 | definition of `server_available?`; its properties are in the `Availability.AvailableIff` and `Availability.AvailabilityMonotone` rows |
| `MemoryEstimator.CatalogMemory` | app/controllers/proxy_controller.rb:136-167 | definition of the loop over the servers' catalogs; its properties are in the `MemoryEstimator.CatalogMemoryFirstReporter` row |
| `MemoryEstimator.Fetched` | app/controllers/proxy_controller.rb:126-168 | definition of what `fetch_model_memory_from_servers` returns; the method is proved equal to it (`MemoryEstimator.FetchModelMemoryFromServers`) and its properties are in the `MemoryEstimator.EstimateCacheHit` and `MemoryEstimator.CacheWriteBack` rows |
| `MemoryEstimator.CacheAfterFetch` | app/controllers/proxy_controller.rb:131-157 | definition of the cache after the fetch; its properties are in the `MemoryEstimator.FetchModelMemoryFromServers` and `MemoryEstimator.CacheWriteBack` rows |
| `MemoryEstimator.Estimate` | app/controllers/proxy_controller.rb:99-124 | definition of `get_model_memory_requirements`, with the 4.5 fallback applied to a nil name as well (see "## Findings"); its properties are in the `MemoryEstimator.EstimateOverrideWins`, `MemoryEstimator.EstimateCacheHit`, `MemoryEstimator.EstimateChain`, `MemoryEstimator.EstimateNilLikeUnknown` and `MemoryEstimator.EstimateExamples` rows |
| `MemoryEstimator.CacheAfterEstimate` | app/controllers/proxy_controller.rb:99-124 | definition of the cache after an estimate; its properties are in the `MemoryEstimator.EstimateOverrideWins` and `MemoryEstimator.CacheWriteBack` rows |
| `MemoryEstimator.EstimateAsWritten` | app/controllers/proxy_controller.rb:100 | definition of the estimate as the code computes it, nil for a nil name when no default is set; its properties are in the `MemoryEstimator.EstimateAsWrittenDiffers` row |
| `Selector.ExplicitAssignment` | app/controllers/proxy_controller.rb:59-73 | definition of the explicit-assignment branch; its properties are in the `Selector.ExplicitResolution` and `Selector.ExplicitAssignmentIsAbsolute` rows |
| `Selector.Choose` | app/controllers/proxy_controller.rb:79-96 | definition of automatic selection for a known requirement; its properties are in the `Selector.ChooseBest`, `Selector.DegradedFallback` and `Selector.CandidatesIgnoreRequired` rows |
| `Selector.Selection` | app/controllers/proxy_controller.rb:55-97 | definition of `select_server` on the corrected estimate; its properties are in the `Selector.SelectServer`, `Selector.SelectionOutcome` and test-suite example rows |
| `Selector.ChooseAsWritten` | app/controllers/proxy_controller.rb:79-96 | definition of the filter as written, raising on `nil <= max_memory_gb`; its properties are in the `Selector.SelectionAsWrittenDiffers` row |
| `Selector.SelectionAsWritten` | app/controllers/proxy_controller.rb:55-100 | definition of `select_server` on the source's estimate; its properties are in the `Selector.SelectionAsWrittenDiffers` and `Selector.NilModelWithoutDefaultRaises` rows |
| `Forwarder.RequestUrl` | app/controllers/proxy_controller.rb:213-221 | definition of the URL `build_request_url` builds; its properties are in the `Forwarder.BuildRequestUrl`, `Forwarder.ParseRequestUrl`, `Forwarder.DefaultScheme` and URL example rows |
| `Forwarder.Forwardable` | app/controllers/proxy_controller.rb:225-228 | definition of the header filter; its properties are in the `Forwarder.RenamedDomain`, `Forwarder.ExcludedHeadersDropped` and `Forwarder.TrailingUnderscoreKept` rows |
| `Forwarder.Capitalize` | app/controllers/proxy_controller.rb:232 | definition of ASCII `capitalize`; its properties are in the `Forwarder.HeaderNameInvertsEnvKey` row |
| `Forwarder.HeaderName` | app/controllers/proxy_controller.rb:232 | definition of the key renaming; its properties are in the `Forwarder.HeaderNameHasNoUnderscore`, `Forwarder.HeaderNameInvertsEnvKey` and `Forwarder.TrailingUnderscoreKept` rows |
| `Forwarder.Renamed` | app/controllers/proxy_controller.rb:225-233 | definition of the selected and renamed headers; its properties are in the `Forwarder.RenamedDomain` and `Forwarder.RenamedLastWins` rows |
| `Forwarder.ApiKey` | app/controllers/proxy_controller.rb:236-238 | definition of the API key lookup; its properties are in the `Forwarder.AuthorizationHeader` row |
| `Forwarder.ForwardedHeaders` | app/controllers/proxy_controller.rb:223-246 | definition of what `forward_headers` returns; the method is proved equal to it (`Forwarder.ForwardHeaders`) and its properties are in the `Forwarder.AuthorizationHeader` row |
| `MemoryEstimator.FirstPatternMatch` | app/controllers/proxy_controller.rb:114-120 | definition of the `memory_patterns.each` loop; the loop in `MemoryEstimator.GetModelMemoryRequirements` is proved against it, and its properties are in the `MemoryEstimator.FirstPatternMatchIff` and `MemoryEstimator.EstimateChain` rows |
| `Selector.Eligible` | app/controllers/proxy_controller.rb:80-82 | definition of the `select` block's condition; its properties are in the `Selector.Candidates`, `Selector.MinCandidateIsBest` and `Selector.CandidatesIgnoreRequired` rows |
| `Selector.CacheAfterSelection` | app/controllers/proxy_controller.rb:59-76 | definition of the cache after `select_server`: unchanged under an explicit assignment, otherwise the cache after the estimate; its properties are in the `Selector.SelectServer` and `Selector.ExplicitAssignmentIsAbsolute` rows |
| `Strings.RubySplit` | app/controllers/proxy_controller.rb:232 | definition of `split('_')`; its properties are in the `Strings.DropTrailingEmpty`, `Strings.RubySplitAppendSep` and `Forwarder.HeaderNameInvertsEnvKey` rows |
| `Strings.ContainsIff` | app/controllers/proxy_controller.rb:40 | `include?` holds exactly when the substring occurs at some position |
| `Strings.JoinFields` | app/controllers/proxy_controller.rb:232 | joining the fields of a string with the separator it was split on gives the string back |
| `Strings.FieldsJoin` | app/controllers/proxy_controller.rb:232 | splitting a join of separator-free parts gives the parts back |
| `Strings.DropTrailingEmpty` | app/controllers/proxy_controller.rb:232 | `split` keeps a prefix of the fields and drops only a trailing run of empty ones, so the last kept field is non-empty |
| `Strings.ParseDecimalInverts` | app/controllers/proxy_controller.rb:218 | the decimal rendering of a port reads back as the same number |
| `Config.Lookup` | app/controllers/proxy_controller.rb:63-71 | a hash lookup finds settings exactly when some entry has the key, and returns that entry's settings |
| `ModelName.BodyModelIff` | app/controllers/proxy_controller.rb:40-46 | on a generate/chat path the result is a model exactly when the body is present, parses to an object with a non-null `model` member, and then it is that member |
| `ModelName.RaisesIff` | app/controllers/proxy_controller.rb:42-45 | extraction raises exactly when a present generate/chat body parses to JSON that is neither an object nor null; malformed JSON gives nil |
| `ModelName.ExtractionSources` | app/controllers/proxy_controller.rb:40-50 | generate/chat paths ignore the params even when the path also names pull/push/show; other paths ignore the body |
| `ModelName.ParamsModel` | app/controllers/proxy_controller.rb:47-52 | pull/push/show paths give a truthy `params[:name]`, otherwise `params[:model]`; every other path gives nil |
| `ModelName.ExtractionExamples` | spec/controllers/proxy_controller_spec.rb:108-137 | `llama2` and `mistral:7b` are read from generate/chat bodies; invalid JSON and `/api/tags` give nil |
| `Availability.AvailableIff` | app/controllers/proxy_controller.rb:170-187 | available exactly when enabled and the probe replied with success faster than the threshold; the threshold defaults to 1000 ms; a raising probe means unavailable |
| `Availability.AvailabilityMonotone` | app/controllers/proxy_controller.rb:183 | a higher busy threshold, or a faster successful reply, never turns an available server unavailable |
| `MemoryEstimator.BytesToGB` | app/controllers/proxy_controller.rb:152 | the GB figure is within 0.05 of bytes / 2^30 and is a whole number of tenths |
| `MemoryEstimator.FindModel` | app/controllers/proxy_controller.rb:148 | `find` returns the first catalog entry with the model's name, or nothing when no entry has it |
| `MemoryEstimator.CatalogMemoryFirstReporter` | app/controllers/proxy_controller.rb:137-167 | the catalog answer comes from the first enabled server, in configured order, whose catalog lists the model with a size; disabled and failing servers are skipped; with no such server it is nil |
| `MemoryEstimator.FetchModelMemoryFromServers` | app/controllers/proxy_controller.rb:126-168 | the loop returns the cached value when caching is on and one exists, otherwise the first reporting server's size, and writes the cache only when caching is on |
| `MemoryEstimator.FirstPatternMatchIff` | app/controllers/proxy_controller.rb:114-120 | the pattern rule that decides is the first in list order that matches; none decides exactly when none matches |
| `MemoryEstimator.GetModelMemoryRequirements` | app/controllers/proxy_controller.rb:99-124 | the early-return chain and the pattern loop compute the specified estimate and the specified new cache |
| `MemoryEstimator.EstimateOverrideWins` | app/controllers/proxy_controller.rb:104-107 | an override is returned exactly, whatever the cache, catalogs and patterns say, and leaves the cache unchanged |
| `MemoryEstimator.EstimateCacheHit` | app/controllers/proxy_controller.rb:131-134 | with caching on, a cached value is returned without consulting any catalog |
| `MemoryEstimator.EstimateChain` | app/controllers/proxy_controller.rb:109-123 | without an override or cache hit, the first reporting server's size wins over every pattern; with no reporter, the first matching pattern decides, then the default, then 4.5 |
| `MemoryEstimator.EstimateNilLikeUnknown` | app/controllers/proxy_controller.rb:123 | a nil name is estimated like a name no rule knows: the default, or 4.5 when none is set |
| `MemoryEstimator.CacheWriteBack` | app/controllers/proxy_controller.rb:155-157 | the cache changes only with caching on, only at the requested name, to the returned value, and that value is read back on the next estimate without consulting any catalog |
| `MemoryEstimator.EstimateAsWrittenDiffers` | app/controllers/proxy_controller.rb:100 | the source's estimate differs from the corrected one exactly when the name is nil and no default is set, and it is then nil |
| `MemoryEstimator.EstimateExamples` | spec/controllers/proxy_controller_spec.rb:30-159 | under the test suite's model configuration (lines 30-41: the `custom-model` override, the `.*-7b.*` and `.*-70b.*` patterns, the 4.5 default and caching off), `custom-model` gives 10.0, `llama2-7b-chat`, `unknown-model` and nil give 4.5 (tests at lines 141-159), and a name matching only the `.*-70b.*` pattern gives 40.0 |
| `Selector.Candidates` | app/controllers/proxy_controller.rb:79-83 | the filtered servers are exactly the configured servers that are enabled, within their memory ceiling and available |
| `Selector.MinByRank` | app/controllers/proxy_controller.rb:93 | `min_by` picks a candidate whose `priority \|\| 999` is no greater than any other's, and the first in order among equals |
| `Selector.FirstEnabled` | app/controllers/proxy_controller.rb:87 | `find` returns the first enabled server in configured order, or nothing when none is enabled |
| `Selector.SelectServer` | app/controllers/proxy_controller.rb:55-97 | selection returns the explicit assignment when one applies, without estimating memory, and otherwise the automatic choice for the estimate |
| `Selector.ExplicitResolution` | app/controllers/proxy_controller.rb:59-73 | an assignment to an enabled external host returns that host with the assigned name merged in, even when a local server has the same key; otherwise an enabled local server of that key; otherwise nothing |
| `Selector.ExplicitAssignmentIsAbsolute` | app/controllers/proxy_controller.rb:59-73 | an explicit assignment ignores the memory estimate, cache, catalogs and probes, and leaves the cache unchanged |
| `Selector.MinCandidateIsBest` | app/controllers/proxy_controller.rb:93 | the candidate `min_by` picks is eligible, of least rank among eligible servers, and the first such in configured order |
| `Selector.ChooseBest` | app/controllers/proxy_controller.rb:79-96 | when any server passes the filter, automatic selection returns the best eligible server |
| `Selector.DegradedFallback` | app/controllers/proxy_controller.rb:85-90 | when none passes, the first enabled server is returned regardless of memory and availability; the error is raised exactly when no server is enabled |
| `Selector.SelectionOutcome` | app/controllers/proxy_controller.rb:55-97 | selection fails exactly when no assignment applies and no local server is enabled; an automatic result is always an enabled local server, never an external host |
| `Selector.PriorityOneByDefault` | spec/controllers/proxy_controller_spec.rb:169-172 | with both test servers healthy and 4.5 GB required, `high_performance` is chosen |
| `Selector.MemoryCeilingRespected` | spec/controllers/proxy_controller_spec.rb:174-180 | a 15 GB model skips the 8 GB `legacy` server |
| `Selector.FallsBackWhenUnavailable` | spec/controllers/proxy_controller_spec.rb:182-192 | `legacy` is chosen when `high_performance` is unavailable |
| `Selector.UnconfiguredAssignmentFallsThrough` | spec/controllers/proxy_controller_spec.rb:30-31 | `gpt-4` is assigned to the undefined `openai`, so it is selected automatically |
| `Selector.CandidatesIgnoreRequired` | app/controllers/proxy_controller.rb:81 | when no enabled server has a memory ceiling, the required memory does not affect the filter |
| `Selector.SelectionAsWrittenDiffers` | app/controllers/proxy_controller.rb:76-83 | the source's selection and the corrected one disagree exactly when the name is nil, no default is set and an enabled server has a ceiling; the source then raises and the corrected one succeeds |
| `Selector.NilModelWithoutDefaultRaises` | app/controllers/proxy_controller.rb:100 | with the test suite's servers and no default memory, a request without a model name raises in the source, while the corrected estimate is 4.5 and selection succeeds |
| `Forwarder.BuildRequestUrl` | app/controllers/proxy_controller.rb:213-221 | the URL grown with `+=` is the specified `protocol://host:port` + path + optional `?query` |
| `Forwarder.ParseRequestUrl` | app/controllers/proxy_controller.rb:213-221 | the URL reads back as the backend's scheme (default `http`), host and port, the path unchanged, and the query exactly when it is present, so a blank query leaves no `?` |
| `Forwarder.DefaultScheme` | app/controllers/proxy_controller.rb:214 | every URL starts with the configured protocol and `://`, and with `http://` when none is configured |
| `Forwarder.GenerateUrlExample` | spec/controllers/proxy_controller_spec.rb:196-203 | `localhost:11435` with `/api/generate` and an empty query gives `http://localhost:11435/api/generate` |
| `Forwarder.TagsUrlExample` | spec/controllers/proxy_controller_spec.rb:205-212 | `/api/tags` with `format=json` gives `http://localhost:11435/api/tags?format=json` |
| `Forwarder.ForwardHeaders` | app/controllers/proxy_controller.rb:223-246 | the loop computes the renamed kept headers, with `Authorization: Bearer <key>` set when the API key is present |
| `Forwarder.RenamedDomain` | app/controllers/proxy_controller.rb:225-233 | a name is forwarded exactly when some kept (`HTTP_`, not excluded) environment entry renames to it |
| `Forwarder.RenamedLastWins` | app/controllers/proxy_controller.rb:231-233 | a forwarded name carries the unchanged value of the last entry renaming to it |
| `Forwarder.HeaderNameHasNoUnderscore` | app/controllers/proxy_controller.rb:232 | no forwarded header name contains `_` |
| `Forwarder.HeaderNameInvertsEnvKey` | app/controllers/proxy_controller.rb:232 | renaming undoes the Rack encoding: a canonical header name such as `User-Agent` is forwarded under its own name |
| `Forwarder.AuthorizationHeader` | app/controllers/proxy_controller.rb:235-243 | with an API key present, `Authorization` is `Bearer <key>`; without one, it is present exactly when an inbound entry renames to it; the key counts as present exactly when `api_key_env` is set and its variable is non-blank; every other renamed inbound header is forwarded with its value unchanged, and no other name is added; without a key the result is exactly the renamed inbound headers |
| `Forwarder.ExcludedHeadersDropped` | app/controllers/proxy_controller.rb:227 | the inbound `Authorization`, `Host` and `Version` headers, under their canonical environment keys, are never forwarded |
| `Forwarder.ExcludedNames` | app/controllers/proxy_controller.rb:227 | the canonical names `Authorization`, `Host` and `Version` are one-word header names whose Rack-encoded keys are among the three excluded keys |
| `Forwarder.TrailingUnderscoreKept` | app/controllers/proxy_controller.rb:225-233 | appending `_` to an `HTTP_` key makes it pass the exclusion and leaves its forwarded name unchanged |
| `Forwarder.TrailingUnderscoreRenamesToCanonical` | app/controllers/proxy_controller.rb:225-233 | the key of a canonical header name with a trailing `_` is forwarded under that canonical name, with its value |
| `Forwarder.ExclusionBypassedByTrailingUnderscore` | app/controllers/proxy_controller.rb:225-233 | for each of `Authorization`, `Host` and `Version`, the canonical key is dropped, while the same key with a trailing `_` is kept and forwarded under the excluded name |
| `Strings.FieldsAppendSep` | app/controllers/proxy_controller.rb:232 | a trailing separator adds exactly one empty field |
| `Strings.RubySplitAppendSep` | app/controllers/proxy_controller.rb:232 | `split` ignores a trailing separator, which is why `HTTP_X_` and `HTTP_X` rename alike |

## Left out

- HTTP traffic: `forward_request` (the verb dispatch and `HTTParty` calls), the probes and the catalog requests. Their outcomes are function parameters; timeouts (`model_info_timeout`, the 2-second probe timeout) only show up as "raised" or "failed" outcomes.
- `render_proxy_response`: Rails rendering on a foreign response object.
- `forward`: wall-clock timing, logging and the 500 error response.
- Logging inside the routing engine: the `Rails.logger` calls at lines 86, 95, 163 and 241 have no effect on results and are not modelled.
- `log_request`, the authentication filter, the health endpoint, the request-log and user models, routes and process configuration: not part of the routing engine.
- Regular expressions and JSON: abstract parameters. An invalid pattern (`RegexpError` from `Regexp.new`) is not modelled.
- The model-info cache is a map passed in and returned. Its TTL expiry and its concurrent use by several requests are not modelled.
- `MemoryEstimator.BytesToGB`: rounds in exact arithmetic, half up to a tenth. It does not model the IEEE double division and `Float#round`.
- A catalog size is a natural number of bytes. A string, float or negative `size` (`to_f` conversions) is not modelled. A catalog body that is valid JSON but not an object is treated as a failed request.
- A model name that is not a string (a number or array in the JSON body or params) is carried by `ModelName` but is not passed on to selection. `Selector` and `MemoryEstimator` take `Option<string>`.
- Configuration keys are strings, as in the string-keyed configuration mock of the test suite (spec/controllers/proxy_controller_spec.rb:30-35). Ruby's symbol/string distinction is not modelled.
  - The configuration is loaded with `config_for(:ollama_proxy)` (config/application.rb:33), and the controller reads nested settings by symbol (for example `pattern_config[:pattern]` at line 116). Both suggest the loaded hashes have symbol keys at every depth.
  - If so, the `to_sym` lookups at lines 63 and 69 still find their entries. The String model-name lookups in `explicit_assignments` (line 59) and `memory_overrides` (line 105) would always miss.
  - That behaviour is this model with empty `explicitAssignments` and `memoryOverrides`. The properties of `Selector.ExplicitResolution`, `Selector.ExplicitAssignmentIsAbsolute` and `MemoryEstimator.EstimateOverrideWins` then apply only to string-keyed configurations like the mock.
- A nil `servers` hash, on which the source raises at lines 79 and 137, is modelled as an empty sequence.
- Case conversion and whitespace are ASCII only. Unicode `capitalize`, `upcase` and `blank?` are not modelled.
- `Forwarder.ParseRequestUrl`: the round trip is stated only for a scheme and host without `:` and a path that starts with `/` and contains no `?`. Other inputs give ambiguous URLs.
- `Forwarder.AuthorizationHeader`: without an API key, `Authorization` is forwarded exactly when an inbound entry renames to it. "Never present" is not stated as a separate guarantee, because the source does forward `HTTP_AUTHORIZATION_` (see `Forwarder.ExclusionBypassedByTrailingUnderscore`).
- `Availability.AvailableIff`: elapsed time is a real number of seconds supplied by the probe. The wall clock is not modelled.

## Findings

| source | as written | input that shows it | evidently intended | confidence | as-written member | corrected member |
|---|---|---|---|---|---|---|
| app/controllers/proxy_controller.rb:100 | a nil model name returns `default_memory_gb` with no 4.5 fallback, unlike line 123; with no default configured the estimate is nil, and the comparison `model_memory_gb <= server_config[:max_memory_gb]` at line 81 raises `NoMethodError` as soon as an enabled server has a ceiling | the test suite's servers (`legacy` has `max_memory_gb: 8`), `default_memory_gb` unset, a request without a model name such as `GET /api/tags` | a nil name estimated as `default_memory_gb \|\| 4.5`, as for an unknown name, so selection proceeds | high (not executed) | `MemoryEstimator.EstimateAsWritten` | `MemoryEstimator.Estimate` |
