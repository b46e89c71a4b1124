/** The registry of storage providers: reloading its configuration, looking providers up by alias, and
    routing files to them. */
module Registry {
  import opened GoText
  import opened Sorting
  import opened TextOrder
  import opened Wrappers

  /** An open provider client, with the configuration it was built from. */
  datatype Store = Store(handle: nat, builtFrom: ProviderConfig)

  datatype ProviderConfig = ProviderConfig(kind: string, endpoint: string, publicEndpoint: string, accessKey: string,
      secretKey: string,
                                           useSsl: bool, bucket: string, region: string, caption: string)

  datatype Conditions = Conditions(minSize: int, maxSize: int, extensions: seq<string>, mimePrefixes: seq<string>)

  datatype Rule = Rule(conditions: Conditions, target: string)

  datatype Config = Config(providers: map<string, ProviderConfig>, defaultProvider: string, rules: seq<Rule>)

  datatype Error = Invalid | Unknown | FactoryFailed

  // ----- validation -----

  predicate NonBlank(s: string) {
    TrimSpace(s) != ""
  }

  predicate ValidProvider(alias: string, p: ProviderConfig) {
    NonBlank(alias) && NonBlank(p.kind) && NonBlank(p.endpoint) && NonBlank(p.bucket)
  }

  predicate ValidConfig(c: Config) {
    && c.defaultProvider != "" && c.defaultProvider in c.providers
    && (forall alias <- c.providers :: ValidProvider(alias, c.providers[alias]))
    && (forall rule <- c.rules :: NonBlank(rule.target) && rule.target in c.providers)
  }

  /** Validate */
  method Validate(c: Config) returns (ok: bool)
    ensures ok <==> ValidConfig(c)
  {
    hide NonBlank;
    if |c.providers| == 0 || c.defaultProvider == "" || c.defaultProvider !in c.providers {
      return false;
    }
    var rest := c.providers.Keys;
    while rest != {}
      invariant rest <= c.providers.Keys
      invariant forall alias <- c.providers | alias !in rest :: ValidProvider(alias, c.providers[alias])
      decreases rest
    {
      var alias :| alias in rest;
      if !ValidProvider(alias, c.providers[alias]) {
        return false;
      }
      rest := rest - {alias};
    }
    for i := 0 to |c.rules|
      invariant forall j | 0 <= j < i :: NonBlank(c.rules[j].target) && c.rules[j].target in c.providers
    {
      if !NonBlank(c.rules[i].target) || c.rules[i].target !in c.providers {
        assert c.rules[i] in c.rules;
        return false;
      }
    }
    ok := true;
  }

  // ----- routing -----

  predicate ExtensionMatches(c: Conditions, ext: string) {
    c.extensions == [] || exists e <- c.extensions :: EqualFold(TrimDot(TrimSpace(e)), ext)
  }

  predicate MimeMatches(c: Conditions, mime: string) {
    c.mimePrefixes == [] || exists prefix <- c.mimePrefixes :: ToLower(TrimSpace(prefix)) <= ToLower(TrimSpace(mime))
  }

  predicate SizeMatches(c: Conditions, size: int) {
    (c.minSize > 0 ==> size >= c.minSize) && (c.maxSize > 0 ==> size <= c.maxSize)
  }

  predicate RuleMatches(rule: Rule, size: int, ext: string, mime: string) {
    SizeMatches(rule.conditions, size) && ExtensionMatches(rule.conditions, ext) && MimeMatches(rule.conditions, mime)
  }

  function RoutingExt(ext: string): string {
    ToLower(TrimDot(TrimSpace(ext)))
  }

  /** matchConditions */
  method MatchConditions(c: Conditions, size: int, ext: string, mime: string) returns (ok: bool)
    ensures ok <==> SizeMatches(c, size) && ExtensionMatches(c, ext) && MimeMatches(c, mime)
  {
    hide ToLower, TrimSpace, TrimDot;
    if (c.minSize > 0 && size < c.minSize) || (c.maxSize > 0 && size > c.maxSize) {
      return false;
    }
    if |c.extensions| > 0 {
      var matched := false;
      for i := 0 to |c.extensions|
        invariant !matched && forall j | 0 <= j < i :: !EqualFold(TrimDot(TrimSpace(c.extensions[j])), ext)
      {
        if EqualFold(TrimDot(TrimSpace(c.extensions[i])), ext) {
          matched := true;
          break;
        }
      }
      if !matched {
        return false;
      }
    }
    if |c.mimePrefixes| > 0 {
      var matched := false;
      var lower := ToLower(TrimSpace(mime));
      for i := 0 to |c.mimePrefixes|
        invariant !matched && forall j | 0 <= j < i :: !(ToLower(TrimSpace(c.mimePrefixes[j])) <= lower)
      {
        if ToLower(TrimSpace(c.mimePrefixes[i])) <= lower {
          matched := true;
          break;
        }
      }
      if !matched {
        return false;
      }
    }
    ok := true;
  }

  /** The target of the first rule that matches. */
  ghost predicate FirstMatch(rules: seq<Rule>, size: int, ext: string, mime: string, target: string) {
    exists i | 0 <= i < |rules| ::
      RuleMatches(rules[i], size, RoutingExt(ext), mime) && target == rules[i].target &&
      forall j | 0 <= j < i :: !RuleMatches(rules[j], size, RoutingExt(ext), mime)
  }

  ghost predicate NoMatch(rules: seq<Rule>, size: int, ext: string, mime: string) {
    forall rule <- rules :: !RuleMatches(rule, size, RoutingExt(ext), mime)
  }

  /** MatchRoutingRules: the first matching rule's target, or the empty text. */
  method MatchRoutingRules(rules: seq<Rule>, size: int, ext: string, mime: string) returns (target: string)
    ensures FirstMatch(rules, size, ext, mime, target) || (NoMatch(rules, size, ext, mime) && target == "")
  {
    hide SizeMatches, ExtensionMatches, MimeMatches, RoutingExt;
    var normalizedExt := RoutingExt(ext);
    for i := 0 to |rules|
      invariant forall j | 0 <= j < i :: !RuleMatches(rules[j], size, normalizedExt, mime)
    {
      var matches := MatchConditions(rules[i].conditions, size, normalizedExt, mime);
      if matches {
        return rules[i].target;
      }
    }
    target := "";
  }

  // ----- looking up an alias -----

  /** The provider that an alias stands for: the alias itself, else the least alias that equals `lower` in
      lower case, else the only provider of that type. */
  ghost predicate Finds(providers: map<string, ProviderConfig>, alias: string, lower: string, key: string) {
    key in providers &&
    if alias in providers then key == alias
    else if exists k <- providers :: ToLower(k) == lower then
      ToLower(key) == lower && forall k <- providers | ToLower(k) == lower :: TextLe(key, k)
    else EqualFold(providers[key].kind, alias) && forall k <- providers | EqualFold(providers[k].kind, alias) ::
        k == key
  }

  /** What Get finds. */
  ghost predicate GetFinds(providers: map<string, ProviderConfig>, alias: string, key: string) {
    Finds(providers, alias, ToLower(alias), key)
  }

  /** What ProviderConfigByAlias finds; it trims the alias for the second comparison only. */
  ghost predicate ConfigFinds(providers: map<string, ProviderConfig>, alias: string, key: string) {
    (alias in providers || NonBlank(alias)) && Finds(providers, alias, ToLower(TrimSpace(alias)), key)
  }

  /** An alias stands for one provider at most. */
  lemma FindsOne(providers: map<string, ProviderConfig>, alias: string, lower: string, a: string, b: string)
    requires Finds(providers, alias, lower, a) && Finds(providers, alias, lower, b)
    ensures a == b
  {
    TextLeIsTotal(a, b);
  }

  /** For aliases without blanks around them both lookups find the same provider or none. */
  lemma LookupsAgree(c: Config, alias: string, key: string)
    requires ValidConfig(c) && Trimmed(alias)
    ensures GetFinds(c.providers, alias, key) <==> ConfigFinds(c.providers, alias, key)
  {
    assert TrimSpace(alias) == alias;
    if alias == "" {
      assert Trimmed("");
      forall k | k in c.providers ensures ToLower(k) != "" && !EqualFold(c.providers[k].kind, "") && k != "" {
        assert ValidProvider(k, c.providers[k]);
        assert TrimSpace("") == "";
      }
    }
  }

  predicate AllSpaces(s: string) {
    forall i | 0 <= i < |s| :: IsSpace(s[i])
  }

  lemma BlankIsSpaces(s: string)
    ensures TrimSpace(s) == "" <==> AllSpaces(s)
  {
    hide IsSpace;
    var left := TrimLeft(s);
    assert left != "" ==> left[0] == s[|s| - |left|] && !IsSpace(left[0]);
    assert left == "" || TrimRight(left) != "";
  }

  lemma LowerSpace(c: char)
    ensures IsSpace(LowerChar(c)) <==> IsSpace(c)
  {
  }

  /** Folding case neither makes nor removes blanks. */
  lemma BlankFolds(a: string, b: string)
    requires ToLower(a) == ToLower(b) && NonBlank(a)
    ensures NonBlank(b)
  {
    BlankIsSpaces(a);
    BlankIsSpaces(b);
    hide IsSpace, LowerChar, TrimSpace;
    var i :| 0 <= i < |a| && !IsSpace(a[i]);
    assert ToLower(a)[i] == ToLower(b)[i] && |a| == |b|;
    LowerSpace(a[i]);
    LowerSpace(b[i]);
  }

  /** Of nothing but blanks neither lookup makes anything. */
  lemma BlankFindsNothing(c: Config, alias: string, key: string)
    requires ValidConfig(c) && TrimSpace(alias) == ""
    ensures !GetFinds(c.providers, alias, key) && !ConfigFinds(c.providers, alias, key)
  {
    forall k | k in c.providers
        ensures k != alias && ToLower(k) != ToLower(alias) && !EqualFold(c.providers[k].kind, alias) {
      assert ValidProvider(k, c.providers[k]);
      if ToLower(k) == ToLower(alias) {
        BlankFolds(k, alias);
      }
      if EqualFold(c.providers[k].kind, alias) {
        BlankFolds(c.providers[k].kind, alias);
      }
    }
    hide ToLower, TrimSpace, EqualFold;
  }

  /** One provider under this alias, which is its type as well. */
  function Single(alias: string): Config {
    Config(map[alias := ProviderConfig(alias, "a", "", "", "", false, "a", "", "")], alias, [])
  }

  lemma SingleIsValid(alias: string)
    requires TrimSpace(alias) == alias != ""
    ensures ValidConfig(Single(alias))
  {
    assert Trimmed("a");
    assert TrimSpace("a") == "a";
    hide TrimSpace;
    assert ValidProvider(alias, Single(alias).providers[alias]);
  }

  lemma ShorterText(alias: string)
    requires !Trimmed(alias)
    ensures var text := TrimSpace(alias); TrimSpace(text) == text && text != alias && ToLower(text) != ToLower(alias)
  {
    var text := TrimSpace(alias);
    assert |text| < |alias|;
    hide TrimSpace;
    assert |ToLower(text)| < |ToLower(alias)|;
  }

  /** With blanks around something else they disagree: the configuration is found, the provider is not. */
  lemma BlanksDisagree(alias: string)
    requires !Trimmed(alias) && TrimSpace(alias) != ""
    ensures var (c, key) := (Single(TrimSpace(alias)), TrimSpace(alias));
            ValidConfig(c) && ConfigFinds(c.providers, alias, key) && forall k :: !GetFinds(c.providers, alias, k)
  {
    hide TrimSpace, ToLower, TextLe, ValidConfig, Trimmed;
    var text := TrimSpace(alias);
    ShorterText(alias);
    SingleIsValid(text);
    TextLeIsTotal(text, text);
  }

  /** The two lookups agree, for all keys in all accepted configurations, exactly on aliases without blanks around
      them and on nothing but blanks. */
  lemma LookupsAgreeExactly(alias: string)
    ensures
      (forall c, key | ValidConfig(c) ::
         GetFinds(c.providers, alias, key) <==> ConfigFinds(c.providers, alias, key)) <==>
      Trimmed(alias) || TrimSpace(alias) == ""
  {
    hide ValidConfig, GetFinds, ConfigFinds, Trimmed, TrimSpace;
    if Trimmed(alias) {
      forall c, key | ValidConfig(c)
          ensures GetFinds(c.providers, alias, key) <==> ConfigFinds(c.providers, alias, key) {
        LookupsAgree(c, alias, key);
      }
    } else if TrimSpace(alias) == "" {
      forall c, key | ValidConfig(c)
          ensures GetFinds(c.providers, alias, key) <==> ConfigFinds(c.providers, alias, key) {
        BlankFindsNothing(c, alias, key);
      }
    } else {
      BlanksDisagree(alias);
    }
  }

  // ----- the registry -----

  /** providerConfigEqual; it looks neither at the label nor at the public endpoint. */
  predicate SameClient(a: ProviderConfig, b: ProviderConfig) {
    a.(caption := b.caption, publicEndpoint := b.publicEndpoint) == b
  }

  /** The client is what this configuration would build, apart from the label. */
  predicate Current(store: Store, p: ProviderConfig) {
    SameClient(store.builtFrom, p) && store.builtFrom.publicEndpoint == p.publicEndpoint
  }

  /** Where the rules of a configuration send a file. */
  ghost predicate Routes(c: Config, size: int, ext: string, mime: string, alias: string) {
    FirstMatch(c.rules, size, ext, mime, alias) || (NoMatch(c.rules, size, ext, mime) && alias == c.defaultProvider)
  }

  class StorageRegistry {
    var providers: map<string, Store>
    var defaultAlias: string
    var routingRules: seq<Rule>
    var storageCfg: Option<Config>

    /** The tables are those of the last accepted configuration, and each client was built from a configuration
        that providerConfigEqual does not tell from the accepted one. */
    ghost predicate Valid()
      reads this
    {
      match storageCfg
      case None => providers == map[] && defaultAlias == "" && routingRules == []
      case Some(c) =>
        && ValidConfig(c) && providers.Keys == c.providers.Keys && defaultAlias == c.defaultProvider
           && routingRules == c.rules
        && forall alias <- providers :: SameClient(providers[alias].builtFrom, c.providers[alias])
    }

    /** The client under this alias was kept by a reload that changed its public endpoint. */
    predicate Stale(c: Config, alias: string)
      requires alias in c.providers
      reads this
    {
      && storageCfg.Some? && alias in storageCfg.value.providers && alias in providers
      && SameClient(storageCfg.value.providers[alias], c.providers[alias])
      && providers[alias].builtFrom.publicEndpoint != c.providers[alias].publicEndpoint
    }

    constructor ()
      ensures Valid() && storageCfg.None?
    {
      providers, defaultAlias, routingRules, storageCfg := map[], "", [], None;
    }

    /** Reload. Once one is accepted there is a configuration for good; a rejected one changes no table.
        Clients of unchanged providers are kept. `removed` are the aliases that went away. */
    method Reload(c: Config) returns (r: Result<set<string>, Error>)
      requires Valid()
      modifies this
      ensures Valid()
      ensures r.Err? ==>
                (storageCfg, providers, defaultAlias, routingRules) ==
                old((storageCfg, providers, defaultAlias, routingRules))
      ensures !ValidConfig(c) ==> r == Err(Invalid)
      ensures r.Ok? ==> storageCfg == Some(c) && r.value == old(providers).Keys - c.providers.Keys
      ensures r.Ok? && old(storageCfg).Some? ==>
                forall alias <- c.providers ::
                  alias in old(storageCfg).value.providers
                      && SameClient(old(storageCfg).value.providers[alias], c.providers[alias]) ==>
                  providers[alias] == old(providers)[alias]
      ensures r.Ok? ==> forall alias <- c.providers ::
              Current(providers[alias], c.providers[alias]) <==> !old(Stale(c, alias))
    {
      hide ValidProvider;
      var ok := Validate(c);
      if !ok {
        return Err(Invalid);
      }
      var newProviders: map<string, Store> := map[];
      var rest := c.providers.Keys;
      while rest != {}
        invariant rest <= c.providers.Keys && newProviders.Keys == c.providers.Keys - rest
        invariant forall alias <- newProviders ::
                    SameClient(newProviders[alias].builtFrom, c.providers[alias]) &&
                    (Current(newProviders[alias], c.providers[alias]) <==> !Stale(c, alias))
        invariant storageCfg.Some? ==>
                    forall alias <- newProviders ::
                      alias in storageCfg.value.providers
                          && SameClient(storageCfg.value.providers[alias], c.providers[alias]) ==>
                      newProviders[alias] == providers[alias]
        decreases rest
      {
        var alias :| alias in rest;
        rest := rest - {alias};
        if storageCfg.Some? && alias in storageCfg.value.providers
            && SameClient(storageCfg.value.providers[alias], c.providers[alias]) {
          newProviders := newProviders[alias := providers[alias]];
        } else {
          var handle: nat, opens: bool := *, *;
          if !opens {
            return Err(FactoryFailed);
          }
          newProviders := newProviders[alias := Store(handle, c.providers[alias])];
        }
      }
      var removed := providers.Keys - newProviders.Keys;
      providers, defaultAlias, routingRules, storageCfg := newProviders, c.defaultProvider, c.rules, Some(c);
      r := Ok(removed);
    }

    /** The first alias in order that equals `lower` in lower case. */
    method FirstFold(keys: set<string>, lower: string) returns (found: Option<string>)
      ensures found.None? ==> forall k <- keys :: ToLower(k) != lower
      ensures found.Some? ==> found.value in keys && ToLower(found.value) == lower &&
                              forall k <- keys | ToLower(k) == lower :: TextLe(found.value, k)
    {
      hide ToLower, TextLe;
      var sorted := SortedTexts(keys);
      for i := 0 to |sorted|
        invariant forall j | 0 <= j < i :: ToLower(sorted[j]) != lower
      {
        if ToLower(sorted[i]) == lower {
          TextLeIsOrder();
          FirstIsLeast(sorted, i, lower);
          return Some(sorted[i]);
        }
      }
      found := None;
    }

    /** The only provider of the given type. */
    method OnlyOfType(configs: map<string, ProviderConfig>, kind: string) returns (found: Option<string>)
      ensures found.None? ==> forall k <- configs | EqualFold(configs[k].kind, kind) ::
                                exists other <- configs :: other != k && EqualFold(configs[other].kind, kind)
      ensures found.Some? ==> found.value in configs && EqualFold(configs[found.value].kind, kind) &&
                              forall k <- configs | EqualFold(configs[k].kind, kind) :: k == found.value
    {
      hide EqualFold;
      var rest := configs.Keys;
      found := None;
      while rest != {}
        invariant rest <= configs.Keys
        invariant forall k <- configs | k !in rest && EqualFold(configs[k].kind, kind) :: found == Some(k)
        invariant found.Some?
                  ==> found.value in configs && found.value !in rest && EqualFold(configs[found.value].kind, kind)
        decreases rest
      {
        var k :| k in rest;
        rest := rest - {k};
        if EqualFold(configs[k].kind, kind) {
          if found.Some? {
            TwoOfType(configs, kind, k, found.value);
            return None;
          }
          found := Some(k);
        }
      }
    }

    /** Get */
    method Get(alias: string) returns (r: Result<Store, Error>)
      requires Valid()
      ensures r.Ok? ==> storageCfg.Some? && exists k <- providers ::
              GetFinds(storageCfg.value.providers, alias, k) && r.value == providers[k]
      ensures r.Err? ==> storageCfg.None? || forall k <- providers :: !GetFinds(storageCfg.value.providers, alias, k)
    {
      hide ValidConfig, ToLower, EqualFold, TextLe;
      if alias in providers {
        assert GetFinds(storageCfg.value.providers, alias, alias);
        return Ok(providers[alias]);
      }
      var fold := FirstFold(providers.Keys, ToLower(alias));
      if fold.Some? {
        assert GetFinds(storageCfg.value.providers, alias, fold.value);
        return Ok(providers[fold.value]);
      }
      if storageCfg.Some? {
        var only := OnlyOfType(storageCfg.value.providers, alias);
        if only.Some? {
          assert GetFinds(storageCfg.value.providers, alias, only.value);
          return Ok(providers[only.value]);
        }
      }
      r := Err(Unknown);
    }

    /** ProviderConfigByAlias: the canonical alias and its configuration. */
    method ProviderConfigByAlias(alias: string) returns (found: Option<string>)
      requires Valid()
      ensures found.Some? ==> storageCfg.Some? && ConfigFinds(storageCfg.value.providers, alias, found.value)
      ensures found.None? ==> storageCfg.None? || forall k <- providers ::
              !ConfigFinds(storageCfg.value.providers, alias, k)
    {
      hide ValidConfig, ToLower, EqualFold, TextLe, TrimSpace;
      if storageCfg.None? {
        return None;
      }
      var configs := storageCfg.value.providers;
      if alias in configs {
        return Some(alias);
      }
      if !NonBlank(alias) {
        return None;
      }
      found := FirstFold(configs.Keys, ToLower(TrimSpace(alias)));
      if found.None? {
        found := OnlyOfType(configs, alias);
      }
    }

    /** Reloads by others between two locked sections. */
    method OthersReload(reloads: seq<Config>)
      requires Valid()
      modifies this
      ensures Valid() && (old(storageCfg).Some? ==> storageCfg.Some?)
      ensures reloads == [] ==> (storageCfg, providers) == old((storageCfg, providers))
    {
      for i := 0 to |reloads|
        invariant Valid() && (old(storageCfg).Some? ==> storageCfg.Some?)
        invariant i == 0 ==> (storageCfg, providers) == old((storageCfg, providers))
      {
        hide ValidConfig, SameClient, Current;
        var _ := Reload(reloads[i]);
      }
    }

    /** Default. The alias is read under one lock and looked up under another; `reloads` come in between. It
        succeeds exactly when the tables of that moment find the alias of the first; without a reload, always. */
    method Default(reloads: seq<Config>) returns (r: Result<(Store, string), Error>)
      requires Valid()
      modifies this
      ensures Valid()
      ensures old(storageCfg).None? ==> r.Err?
      ensures old(storageCfg).Some?
              ==> Opened(old(storageCfg).value.defaultProvider, r) && (reloads == [] ==> Direct(r))
    {
      if defaultAlias == "" {
        return Err(Unknown);
      }
      var alias := defaultAlias;
      hide ValidConfig, SameClient;
      OthersReload(reloads);
      r := Open(alias);
    }

    /** Get on an alias, paired with the alias: it finds what the tables find under it, or there is nothing. */
    ghost predicate Opened(alias: string, r: Result<(Store, string), Error>)
      reads this
    {
      storageCfg.Some? &&
      match r
      case Ok((store, name)) =>
        name == alias && exists k <- providers ::
            GetFinds(storageCfg.value.providers, alias, k) && store == providers[k]
      case Err(_) => forall k <- providers :: !GetFinds(storageCfg.value.providers, alias, k)
    }

    /** The provider of exactly that alias. */
    predicate Direct(r: Result<(Store, string), Error>)
      reads this
    {
      r.Ok? && r.value.1 in providers && r.value.0 == providers[r.value.1]
    }

    method Open(alias: string) returns (r: Result<(Store, string), Error>)
      requires Valid() && storageCfg.Some?
      ensures Opened(alias, r) && (alias in providers ==> Direct(r))
    {
      hide ValidConfig, SameClient, GetFinds;
      var store := Get(alias);
      if alias in providers {
        DirectFinds(storageCfg.value.providers, alias);
      }
      if store.Err? {
        return Err(store.error);
      }
      r := Ok((store.value, alias));
    }

    /** Resolve: the rules are read under one lock and their target looked up under another; `reloads` come in
        between. It succeeds exactly when the tables of that moment find what the rules of the first chose;
        without a reload, always. */
    method Resolve(size: int, ext: string, mime: string, reloads: seq<Config>)
      returns (r: Result<(Store, string), Error>, ghost alias: string)
      requires Valid()
      modifies this
      ensures Valid()
      ensures old(storageCfg).None? ==> r.Err?
      ensures old(storageCfg).Some? ==>
                && Routes(old(storageCfg).value, size, ext, mime, alias)
                && Opened(alias, r) && (reloads == [] ==> Direct(r))
    {
      hide RuleMatches, RoutingExt, ValidProvider, SameClient;
      var target := MatchRoutingRules(routingRules, size, ext, mime);
      if target == "" {
        target := defaultAlias;
      }
      alias := target;
      if target == "" {
        return Err(Unknown), alias;
      }
      assert storageCfg.Some? ==> target in providers;
      OthersReload(reloads);
      hide ValidConfig;
      r := Open(target);
    }
  }

  lemma DirectFinds(providers: map<string, ProviderConfig>, alias: string)
    requires alias in providers
    ensures forall k :: GetFinds(providers, alias, k) <==> k == alias
  {
  }

  lemma FirstIsLeast(sorted: seq<string>, i: nat, lower: string)
    requires i < |sorted| && Sorted(TextLe, sorted) && forall j | 0 <= j < i :: ToLower(sorted[j]) != lower
    ensures forall k <- sorted | ToLower(k) == lower :: TextLe(sorted[i], k)
  {
    hide ToLower;
    forall k | k in sorted && ToLower(k) == lower ensures TextLe(sorted[i], k) {
      var j :| 0 <= j < |sorted| && sorted[j] == k;
      if i == j {
        TextLeIsTotal(k, k);
      }
    }
  }

  lemma TwoOfType(configs: map<string, ProviderConfig>, kind: string, a: string, b: string)
    requires a in configs && b in configs && a != b && EqualFold(configs[a].kind, kind)
             && EqualFold(configs[b].kind, kind)
    ensures forall k <- configs | EqualFold(configs[k].kind, kind) ::
              exists other <- configs :: other != k && EqualFold(configs[other].kind, kind)
  {
    hide EqualFold;
    forall k | k in configs && EqualFold(configs[k].kind, kind)
      ensures exists other <- configs :: other != k && EqualFold(configs[other].kind, kind)
    {
      assert a != k || b != k;
    }
  }
}
