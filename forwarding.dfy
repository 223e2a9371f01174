/** How a request is rewritten for the chosen backend: the target URL
    (`build_request_url`) and the forwarded headers (`forward_headers`). */
module Forwarder {
  import opened Wrappers
  import opened Strings
  import opened Config

  // ---------------------------------------------------------------- target URL

  /** `server_config[:protocol] || 'http'`. */
  function Scheme(b: Backend): string {
    b.protocol.GetOr("http")
  }

  /** `"#{protocol}://#{host}:#{port}"`. */
  function Origin(b: Backend): string {
    Scheme(b) + "://" + b.host + ":" + Decimal(b.port)
  }

  /** `"?#{query_string}"` when the query string is present (not blank), else nothing. */
  function QuerySuffix(query: string): string {
    if Present(query) then "?" + query else ""
  }

  function RequestUrl(b: Backend, path: string, query: string): string {
    Origin(b) + path + QuerySuffix(query)
  }

  /** `build_request_url`. */
  method BuildRequestUrl(b: Backend, path: string, query: string) returns (url: string)
    ensures url == RequestUrl(b, path, query)
  {
    var protocol := b.protocol.GetOr("http");
    url := protocol + "://" + b.host + ":" + Decimal(b.port) + path;
    if Present(query) {
      url := url + "?" + query;
    }
  }

  /** The parts a URL of the form `scheme://host:port/path[?query]` consists of. */
  datatype UrlParts = UrlParts(scheme: string, host: string, port: nat, path: string, query: Option<string>)

  /** The text before the first `c` and the text after it, when `c` occurs. */
  function SplitAt(s: string, c: char): Option<(string, string)> {
    var i := IndexOf(s, c);
    if i == |s| then None else Some((s[..i], s[i + 1..]))
  }

  /** Leading decimal digits up to the first `/`, and the rest from that `/` on. */
  function SplitPort(s: string): Option<(nat, string)> {
    var k := IndexOf(s, '/');
    var digits := s[..k];
    if |digits| == 0 || !AllDigits(digits) then None else Some((ParseDecimal(digits), s[k..]))
  }

  /** The path up to the first `?` and the query after it, if any. */
  function SplitTarget(target: string): (string, Option<string>) {
    var m := IndexOf(target, '?');
    (target[..m], if m < |target| then Some(target[m + 1..]) else None)
  }

  /** Reads a URL back into its parts: the scheme up to the first `:`, then `//`, the
      host up to the next `:`, decimal port digits up to the first `/`, the path up to
      the first `?`, and the query after it. */
  function ParseUrl(url: string): Option<UrlParts> {
    match SplitAt(url, ':')
    case None => None
    case Some((scheme, rest)) =>
      if !StartsWith(rest, "//") then None
      else
        match SplitAt(rest[2..], ':')
        case None => None
        case Some((host, afterHost)) =>
          match SplitPort(afterHost)
          case None => None
          case Some((port, target)) =>
            var (path, query) := SplitTarget(target);
            Some(UrlParts(scheme, host, port, path, query))
  }

  lemma SplitAtJoin(a: string, b: string, c: char)
    requires c !in a
    ensures SplitAt(a + [c] + b, c) == Some((a, b))
  {
    assert a + [c] + b == a + ([c] + b);
    IndexOfAfter(a, [c] + b, c);
    var s := a + [c] + b;
    assert s[..|a|] == a;
    assert s[|a| + 1..] == b;
  }

  lemma SplitPortJoin(n: nat, target: string)
    requires |target| > 0 && target[0] == '/'
    ensures SplitPort(Decimal(n) + target) == Some((n, target))
  {
    var d := Decimal(n);
    assert '/' !in d;
    IndexOfAfter(d, target, '/');
    var s := d + target;
    assert s[..|d|] == d;
    assert s[|d|..] == target;
    ParseDecimalInverts(n);
  }

  lemma SplitTargetJoin(path: string, query: string)
    requires '?' !in path
    ensures SplitTarget(path + QuerySuffix(query)) == (path, if Present(query) then Some(query) else None)
  {
    var q := QuerySuffix(query);
    IndexOfAfter(path, q, '?');
    var t := path + q;
    if Present(query) {
      assert t[..|path|] == path;
      assert t[|path| + 1..] == query;
    } else {
      assert t == path;
    }
  }

  /** Reading back `scheme://host:port` followed by a target that starts with `/`. */
  lemma ParseUrlOfParts(scheme: string, host: string, port: nat, target: string)
    requires ':' !in scheme && ':' !in host
    requires |target| > 0 && target[0] == '/'
    ensures ParseUrl(scheme + [':'] + ("//" + (host + [':'] + (Decimal(port) + target))))
            == Some(UrlParts(scheme, host, port, SplitTarget(target).0, SplitTarget(target).1))
  {
    var afterHost := Decimal(port) + target;
    var rest := "//" + (host + [':'] + afterHost);
    SplitAtJoin(scheme, rest, ':');
    assert StartsWith(rest, "//");
    assert rest[2..] == host + [':'] + afterHost;
    SplitAtJoin(host, afterHost, ':');
    SplitPortJoin(port, target);
  }

  lemma RequestUrlShape(b: Backend, path: string, query: string)
    ensures RequestUrl(b, path, query)
            == Scheme(b) + [':'] + ("//" + (b.host + [':'] + (Decimal(b.port) + (path + QuerySuffix(query)))))
  {
  }

  /** The assembled URL carries the backend's scheme, host and port, the request path
      unchanged, and the query exactly when it is present: an empty or blank query
      leaves no `?`. Holds for a scheme and host without `:` and a path that starts with
      `/` and has no `?`, as request paths do. */
  lemma ParseRequestUrl(b: Backend, path: string, query: string)
    requires ':' !in Scheme(b) && ':' !in b.host
    requires |path| > 0 && path[0] == '/' && '?' !in path
    ensures ParseUrl(RequestUrl(b, path, query))
            == Some(UrlParts(Scheme(b), b.host, b.port, path, if Present(query) then Some(query) else None))
  {
    RequestUrlShape(b, path, query);
    ParseUrlOfParts(Scheme(b), b.host, b.port, path + QuerySuffix(query));
    SplitTargetJoin(path, query);
  }

  // The example lemmas below take the test suite's literals as parameters fixed by a
  // `requires` (`name == "Authorization"`) rather than writing them in the `ensures`:
  // Dafny unfolds a function applied to a literal eagerly, so stating the facts about a
  // parameter keeps each proof small. Each concrete fact is proved in its own lemma.
  lemma DecimalOf11435()
    ensures Decimal(11435) == "11435"
  {
    assert Decimal(1) == "1";
    assert Decimal(11) == Decimal(1) + "1";
    assert Decimal(114) == Decimal(11) + "4";
    assert Decimal(1143) == Decimal(114) + "3";
    assert Decimal(11435) == Decimal(1143) + "5";
  }

  /** `localhost:11435` over `http`, the protocol given or defaulted. */
  lemma LocalOrigin(b: Backend)
    requires b.host == "localhost" && b.port == 11435
    requires b.protocol == None || b.protocol == Some("http")
    ensures Origin(b) == "http://localhost:11435"
  {
    DecimalOf11435();
    assert Scheme(b) == "http";
  }

  lemma QuerySuffixExample(query: string)
    requires query == "format=json"
    ensures QuerySuffix(query) == "?format=json"
  {
    assert !IsSpace(query[0]);
  }

  /** The test suite's URL for a generate request without a query, for a backend
      configured with host `localhost`, port 11435 and protocol `http`. */
  lemma GenerateUrlExample(b: Backend)
    requires b.host == "localhost" && b.port == 11435 && b.protocol == Some("http")
    ensures RequestUrl(b, "/api/generate", "") == "http://localhost:11435/api/generate"
  {
    LocalOrigin(b);
    assert QuerySuffix("") == "";
  }

  /** A query string is appended after `?`; the scheme defaults to `http`. */
  lemma TagsUrlExample(b: Backend, query: string)
    requires b.host == "localhost" && b.port == 11435 && b.protocol == None
    requires query == "format=json"
    ensures RequestUrl(b, "/api/tags", query) == "http://localhost:11435/api/tags?format=json"
  {
    LocalOrigin(b);
    QuerySuffixExample(query);
  }

  /** Without a configured protocol every target URL starts with `http://`; with one it
      starts with that protocol and `://`. */
  lemma DefaultScheme(b: Backend, path: string, query: string)
    ensures StartsWith(RequestUrl(b, path, query), Scheme(b) + "://")
    ensures b.protocol.None? ==> StartsWith(RequestUrl(b, path, query), "http://")
    ensures b.protocol.Some? ==> StartsWith(RequestUrl(b, path, query), b.protocol.value + "://")
  {
    var prefix := Scheme(b) + "://";
    var rest := b.host + ":" + Decimal(b.port) + path + QuerySuffix(query);
    assert RequestUrl(b, path, query) == prefix + rest;
    PrefixStartsWith(prefix, rest);
  }

  lemma PrefixStartsWith(prefix: string, rest: string)
    ensures StartsWith(prefix + rest, prefix)
  {
    assert (prefix + rest)[..|prefix|] == prefix;
  }

  // ------------------------------------------------------------------ headers

  /** One entry of the request's environment hash (`request.headers.to_h`). */
  datatype EnvEntry = EnvEntry(key: string, value: string)

  /** Kept: an `HTTP_` key other than the three excluded ones. */
  predicate Forwardable(key: string) {
    StartsWith(key, "HTTP_") && key != "HTTP_AUTHORIZATION" && key != "HTTP_HOST" && key != "HTTP_VERSION"
  }

  /** `String#capitalize` (ASCII): first character upper case, the rest lower case. */
  function Capitalize(w: string): (r: string)
    ensures |r| == |w|
  {
    if |w| == 0 then w else [Upper(w[0])] + Downcase(w[1..])
  }

  function CapitalizeAll(ws: seq<string>): (r: seq<string>)
    ensures |r| == |ws| && forall k :: 0 <= k < |ws| ==> r[k] == Capitalize(ws[k])
  {
    seq(|ws|, k requires 0 <= k < |ws| => Capitalize(ws[k]))
  }

  /** `key.sub(/^HTTP_/, '').split('_').map(&:capitalize).join('-')`; the key starts
      with `HTTP_`, so the substitution drops those five characters. */
  function HeaderName(key: string): string
    requires StartsWith(key, "HTTP_")
  {
    Join(CapitalizeAll(RubySplit(key[5..], '_')), '-')
  }

  /** The environment entry is kept and renamed to `name`. */
  predicate RenamesTo(e: EnvEntry, name: string) {
    Forwardable(e.key) && HeaderName(e.key) == name
  }

  /** The kept entries under their new names; on a name clash the later entry wins, as
      in `transform_keys`. */
  function Renamed(env: seq<EnvEntry>): map<string, string>
  {
    if |env| == 0 then map[]
    else
      var e := env[|env| - 1];
      var m := Renamed(env[..|env| - 1]);
      if Forwardable(e.key) then m[HeaderName(e.key) := e.value] else m
  }

  /** The API key to inject: the value of the backend's `api_key_env` variable, when
      that is configured and the variable is present (not blank). */
  function ApiKey(b: Backend, vars: map<string, string>): Option<string> {
    if b.apiKeyEnv.Some? && b.apiKeyEnv.value in vars && Present(vars[b.apiKeyEnv.value])
    then Some(vars[b.apiKeyEnv.value])
    else None
  }

  function ForwardedHeaders(b: Backend, env: seq<EnvEntry>, vars: map<string, string>): map<string, string> {
    var m := Renamed(env);
    var key := ApiKey(b, vars);
    if key.Some? then m["Authorization" := "Bearer " + key.value] else m
  }

  /** `forward_headers`; `vars` is the process environment (`ENV`). */
  method ForwardHeaders(b: Backend, env: seq<EnvEntry>, vars: map<string, string>)
    returns (headers: map<string, string>)
    ensures headers == ForwardedHeaders(b, env, vars)
  {
    headers := map[];
    var i := 0;
    while i < |env|
      invariant 0 <= i <= |env|
      invariant headers == Renamed(env[..i])
    {
      var e := env[i];
      assert env[..i + 1][..i] == env[..i];
      if Forwardable(e.key) {
        headers := headers[HeaderName(e.key) := e.value];
      }
      i := i + 1;
    }
    assert env[..|env|] == env;
    if b.apiKeyEnv.Some? {
      var variable := b.apiKeyEnv.value;
      if variable in vars && Present(vars[variable]) {
        headers := headers["Authorization" := "Bearer " + vars[variable]];
      }
    }
  }

  /** Appending one entry changes at most the name it renames to. */
  lemma RenamedStep(env: seq<EnvEntry>, name: string)
    requires |env| > 0
    ensures var init, e := env[..|env| - 1], env[|env| - 1];
            if RenamesTo(e, name) then name in Renamed(env) && Renamed(env)[name] == e.value
            else (name in Renamed(env) <==> name in Renamed(init))
                 && (name in Renamed(init) ==> Renamed(env)[name] == Renamed(init)[name])
  {
  }

  /** Every forwarded name comes from some kept entry. */
  lemma {:induction false} RenamedHasSource(env: seq<EnvEntry>, name: string)
    requires name in Renamed(env)
    ensures exists i :: 0 <= i < |env| && RenamesTo(env[i], name)
    decreases |env|
  {
    var init := env[..|env| - 1];
    var last := |env| - 1;
    RenamedStep(env, name);
    if !RenamesTo(env[last], name) {
      RenamedHasSource(init, name);
      var i :| 0 <= i < |init| && RenamesTo(init[i], name);
      assert env[i] == init[i];
    }
  }

  /** Every kept entry is forwarded under its new name. */
  lemma {:induction false} RenamedIncludes(env: seq<EnvEntry>, name: string, i: int)
    requires 0 <= i < |env| && RenamesTo(env[i], name)
    ensures name in Renamed(env)
    decreases |env|
  {
    var init := env[..|env| - 1];
    RenamedStep(env, name);
    if i < |env| - 1 {
      assert init[i] == env[i];
      RenamedIncludes(init, name, i);
    }
  }

  /** A name is forwarded exactly when some kept entry renames to it. */
  lemma RenamedDomain(env: seq<EnvEntry>, name: string)
    ensures name in Renamed(env) <==> exists i :: 0 <= i < |env| && RenamesTo(env[i], name)
  {
    if name in Renamed(env) {
      RenamedHasSource(env, name);
    }
    forall i | 0 <= i < |env| && RenamesTo(env[i], name)
      ensures name in Renamed(env)
    {
      RenamedIncludes(env, name, i);
    }
  }

  /** The forwarded value is that of the last entry renaming to the name, unchanged:
      later entries overwrite earlier ones. */
  lemma {:induction false} RenamedLastWins(env: seq<EnvEntry>, name: string, i: int)
    requires 0 <= i < |env| && RenamesTo(env[i], name)
    requires forall j :: i < j < |env| ==> !RenamesTo(env[j], name)
    ensures name in Renamed(env) && Renamed(env)[name] == env[i].value
    decreases |env|
  {
    RenamedStep(env, name);
    if i < |env| - 1 {
      var init := env[..|env| - 1];
      assert init[i] == env[i];
      assert forall j :: i < j < |init| ==> init[j] == env[j];
      RenamedLastWins(init, name, i);
    }
  }

  lemma UpperKeepsUnderscores(c: char)
    ensures Upper(c) == '_' <==> c == '_'
    ensures Lower(c) == '_' <==> c == '_'
  {
  }

  lemma {:induction false} JoinWithout(parts: seq<string>, sep: char, c: char)
    requires c != sep
    requires forall k :: 0 <= k < |parts| ==> c !in parts[k]
    ensures c !in Join(parts, sep)
    decreases |parts|
  {
    if |parts| > 1 {
      JoinWithout(parts[1..], sep, c);
    }
  }

  /** Every forwarded name is dash-separated: no `_` survives the renaming. */
  lemma HeaderNameHasNoUnderscore(key: string)
    requires StartsWith(key, "HTTP_")
    ensures '_' !in HeaderName(key)
  {
    var fields := RubySplit(key[5..], '_');
    var caps := CapitalizeAll(fields);
    forall k | 0 <= k < |caps| ensures '_' !in caps[k] {
      var w := fields[k];
      assert '_' !in w;
      forall p | 0 <= p < |caps[k]| ensures caps[k][p] != '_' {
        if p > 0 {
          UpperKeepsUnderscores(w[p]);
        } else {
          UpperKeepsUnderscores(w[0]);
        }
      }
    }
    JoinWithout(caps, '-', '_');
  }

  /** The environment key a Rack server derives from a header name: `HTTP_` and the
      name upper-cased with `-` turned into `_`. */
  function EnvKey(name: string): string {
    "HTTP_" + EnvChars(name)
  }

  /** A header name in canonical form: non-empty dash-separated words, each already
      capitalized (`User-Agent`, `X-Request-Id`). */
  predicate CanonicalWords(words: seq<string>) {
    |words| >= 1
    && forall k :: 0 <= k < |words| ==>
         |words[k]| > 0 && '-' !in words[k] && '_' !in words[k] && Capitalize(words[k]) == words[k]
  }

  /** The name upper-cased, `-` turned into `_`. */
  function EnvChars(name: string): string {
    seq(|name|, k requires 0 <= k < |name| => if name[k] == '-' then '_' else Upper(name[k]))
  }

  function UpcaseAll(ws: seq<string>): (r: seq<string>)
    ensures |r| == |ws| && forall k :: 0 <= k < |ws| ==> r[k] == Upcase(ws[k])
  {
    seq(|ws|, k requires 0 <= k < |ws| => Upcase(ws[k]))
  }

  lemma {:induction false} EnvCharsOfJoin(words: seq<string>)
    requires CanonicalWords(words)
    ensures EnvChars(Join(words, '-')) == Join(UpcaseAll(words), '_')
    decreases |words|
  {
    if |words| == 1 {
      assert EnvChars(words[0]) == Upcase(words[0]);
    } else {
      var tail := words[1..];
      assert CanonicalWords(tail) by {
        assert forall k :: 0 <= k < |tail| ==> tail[k] == words[k + 1];
      }
      EnvCharsOfJoin(tail);
      var a, b := words[0], Join(tail, '-');
      assert EnvChars(a + ['-'] + b) == Upcase(a) + ['_'] + EnvChars(b);
      assert UpcaseAll(words)[1..] == UpcaseAll(tail);
    }
  }

  lemma CapitalizeUpcase(w: string)
    ensures Capitalize(Upcase(w)) == Capitalize(w)
  {
    if |w| > 0 {
      assert Upcase(w)[1..] == Upcase(w[1..]);
      assert Downcase(Upcase(w[1..])) == Downcase(w[1..]);
    }
  }

  lemma SplitOfEnvChars(words: seq<string>)
    requires CanonicalWords(words)
    ensures RubySplit(EnvChars(Join(words, '-')), '_') == UpcaseAll(words)
  {
    EnvCharsOfJoin(words);
    var upper := UpcaseAll(words);
    forall k | 0 <= k < |upper| ensures '_' !in upper[k] {
      forall p | 0 <= p < |upper[k]| ensures upper[k][p] != '_' {
        UpperKeepsUnderscores(words[k][p]);
      }
    }
    FieldsJoin(upper, '_');
    assert upper[|upper| - 1] != "";
  }

  lemma CapitalizeUpcaseAll(words: seq<string>)
    requires CanonicalWords(words)
    ensures CapitalizeAll(UpcaseAll(words)) == words
  {
    forall k | 0 <= k < |words| ensures CapitalizeAll(UpcaseAll(words))[k] == words[k] {
      CapitalizeUpcase(words[k]);
    }
  }

  /** Renaming undoes the server's encoding: a canonical header name reaches the backend
      under its own name. */
  lemma HeaderNameInvertsEnvKey(words: seq<string>)
    requires CanonicalWords(words)
    ensures StartsWith(EnvKey(Join(words, '-')), "HTTP_")
    ensures HeaderName(EnvKey(Join(words, '-'))) == Join(words, '-')
  {
    var key := EnvKey(Join(words, '-'));
    PrefixStartsWith("HTTP_", EnvChars(Join(words, '-')));
    assert key[5..] == EnvChars(Join(words, '-'));
    SplitOfEnvChars(words);
    CapitalizeUpcaseAll(words);
  }

  /** Without an API key the outbound `Authorization` is present only when an inbound
      entry other than `HTTP_AUTHORIZATION` renames to it; with one, it is replaced by the
      backend's bearer token. */
  lemma AuthorizationHeader(b: Backend, env: seq<EnvEntry>, vars: map<string, string>)
    ensures ApiKey(b, vars).Some?
        ==> "Authorization" in ForwardedHeaders(b, env, vars)
            && ForwardedHeaders(b, env, vars)["Authorization"] == "Bearer " + ApiKey(b, vars).value
    ensures ApiKey(b, vars).None?
        ==> ("Authorization" in ForwardedHeaders(b, env, vars) <==> exists i :: 0 <= i < |env| && RenamesTo(env[i], "Authorization"))
    ensures ApiKey(b, vars).Some? <==> b.apiKeyEnv.Some? && b.apiKeyEnv.value in vars && Present(vars[b.apiKeyEnv.value])
    ensures forall name :: name != "Authorization" && name in ForwardedHeaders(b, env, vars)
                           ==> name in Renamed(env) && ForwardedHeaders(b, env, vars)[name] == Renamed(env)[name]
    ensures forall name :: name != "Authorization" && name in Renamed(env)
                           ==> name in ForwardedHeaders(b, env, vars) && ForwardedHeaders(b, env, vars)[name] == Renamed(env)[name]
    ensures ApiKey(b, vars).None? ==> ForwardedHeaders(b, env, vars) == Renamed(env)
  {
    RenamedDomain(env, "Authorization");
  }

  /** None of the excluded keys ends in `_`, so any `HTTP_` key with a trailing `_` is
      kept, and it is renamed exactly as the key without it. */
  lemma TrailingUnderscoreKept(key: string)
    requires StartsWith(key, "HTTP_")
    ensures Forwardable(key + "_")
    ensures HeaderName(key + "_") == HeaderName(key)
  {
    var k := key + "_";
    assert k[|k| - 1] == '_';
    assert k[..5] == key[..5];
    assert k[5..] == key[5..] + ['_'];
    RubySplitAppendSep(key[5..], '_');
  }

  /** What a Rack server makes of a header name is forwarded under that name again when a
      trailing `-` or `_` is added: `Authorization-` arrives at the backend as
      `Authorization`. */
  lemma TrailingUnderscoreRenamesToCanonical(words: seq<string>, value: string)
    requires CanonicalWords(words)
    ensures var key := EnvKey(Join(words, '-')) + "_";
            Forwardable(key) && HeaderName(key) == Join(words, '-')
            && Renamed([EnvEntry(key, value)]) == map[Join(words, '-') := value]
  {
    HeaderNameInvertsEnvKey(words);
    TrailingUnderscoreKept(EnvKey(Join(words, '-')));
    RenamedSingle(EnvEntry(EnvKey(Join(words, '-')) + "_", value));
  }

  lemma RenamedSingle(e: EnvEntry)
    ensures Renamed([e]) == if Forwardable(e.key) then map[HeaderName(e.key) := e.value] else map[]
  {
    assert [e][..0] == [];
  }

  lemma AuthorizationName(name: string)
    requires name == "Authorization"
    ensures CanonicalWords([name]) && EnvChars(name) == "AUTHORIZATION"
  {
    AuthorizationCapitalized(name);
    AuthorizationEnvChars(name);
  }

  lemma AuthorizationCapitalized(name: string)
    requires name == "Authorization"
    ensures CanonicalWords([name])
  {
    assert Downcase(name[1..]) == "uthorization";
  }

  lemma AuthorizationEnvChars(name: string)
    requires name == "Authorization"
    ensures EnvChars(name) == "AUTHORIZATION"
  {
  }

  lemma HostName(name: string)
    requires name == "Host"
    ensures CanonicalWords([name]) && EnvChars(name) == "HOST"
  {
    assert Downcase(name[1..]) == "ost";
  }

  lemma VersionName(name: string)
    requires name == "Version"
    ensures CanonicalWords([name]) && EnvChars(name) == "VERSION"
  {
    assert Downcase(name[1..]) == "ersion";
  }

  /** `Authorization`, `Host` and `Version` are canonical one-word header names, and
      their environment keys are exactly the three excluded keys. A Rack server may
      also store the protocol version of the request line under `HTTP_VERSION`; the
      exclusion drops that key whichever of the two it holds. */
  lemma ExcludedNames(name: string)
    requires name == "Authorization" || name == "Host" || name == "Version"
    ensures CanonicalWords([name])
    ensures EnvKey(name) == "HTTP_AUTHORIZATION" || EnvKey(name) == "HTTP_HOST" || EnvKey(name) == "HTTP_VERSION"
  {
    if name == "Authorization" {
      AuthorizationName(name);
    } else if name == "Host" {
      HostName(name);
    } else {
      VersionName(name);
    }
  }

  /** The three excluded keys are what a Rack server makes of the inbound
      `Authorization`, `Host` and `Version` headers, so those are never forwarded. */
  lemma ExcludedHeadersDropped(name: string)
    requires name == "Authorization" || name == "Host" || name == "Version"
    ensures !Forwardable(EnvKey(name))
  {
    ExcludedNames(name);
  }

  /** The exclusion is tested before renaming, so the same three headers sent with a
      trailing `-` (environment keys `HTTP_AUTHORIZATION_`, `HTTP_HOST_`,
      `HTTP_VERSION_`) are kept and forwarded under the excluded names. */
  lemma ExclusionBypassedByTrailingUnderscore(name: string, value: string)
    requires name == "Authorization" || name == "Host" || name == "Version"
    ensures !Forwardable(EnvKey(name))
    ensures Forwardable(EnvKey(name) + "_")
    ensures Renamed([EnvEntry(EnvKey(name) + "_", value)]) == map[name := value]
  {
    ExcludedNames(name);
    assert Join([name], '-') == name;
    TrailingUnderscoreRenamesToCanonical([name], value);
  }
}
