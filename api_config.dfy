/**
 * The API address manager of the web pages (api-config.js): which base
 * address the pages' /api requests go to, chosen from the game's
 * configuration, the browser's storage or the built-in default, and the
 * fetch wrapper that redirects those requests. Every init installs one
 * more wrapper around the fetch that is current at that moment, so the
 * wrappers stack up.
 */
module ApiConfig {
  import opened Wrappers
  import opened Text

  const DefaultApiBase := "http://127.0.0.1:23333/api"
  const KeyApiBase := "ticketsystem_api_base"
  const KeyApiSource := "ticketsystem_api_source"

  /**
   * game_api_base in the /api/config reply: absent (also when there is no
   * reply, or the request or its JSON failed), a string, or another JSON
   * value with its truthiness.
   */
  datatype GameBase = NoBase | BaseStr(s: string) | BaseOther(truthy: bool)

  /** A fetch resource: a URL string, or a Request object, which the wrapper never rewrites. */
  datatype Resource = Url(s: string) | RequestObject(id: int)

  /** The address chosen by init and where it came from. */
  datatype Choice = Choice(base: string, source: string)

  function Lookup(storage: map<string, string>, key: string): Option<string>
  {
    if key in storage then Some(storage[key]) else None
  }

  /** A stored value that is present and not blank after trimming. */
  predicate NonBlank(v: Option<string>)
  {
    v.Some? && TrimJs(v.value) != ""
  }

  /** The game reply carries a usable string address. */
  predicate GameOffers(game: GameBase)
  {
    game.BaseStr? && TrimJs(game.s) != ""
  }

  /**
   * init's choice: the trimmed game address, else the trimmed stored
   * address with the stored source (or 'browser_storage'), else the
   * default. A truthy non-string game address makes `.trim()` throw, and
   * the catch falls back to the default.
   */
  function Choose(game: GameBase, storedBase: Option<string>, storedSource: Option<string>): Choice
  {
    if game == BaseOther(true) then Choice(DefaultApiBase, "default")
    else if GameOffers(game) then Choice(TrimJs(game.s), "game_config")
    else if NonBlank(storedBase) then
      var source := if storedSource.Some? && storedSource.value != "" then storedSource.value else "browser_storage";
      Choice(TrimJs(storedBase.value), source)
    else Choice(DefaultApiBase, "default")
  }

  /**
   * The precedence of init: a usable game address wins, then a usable
   * stored one with its source, else the default; a failure gives the
   * default. The address is never empty.
   */
  lemma ChooseSpec(game: GameBase, storedBase: Option<string>, storedSource: Option<string>)
    ensures Choose(game, storedBase, storedSource).base != ""
    ensures GameOffers(game) ==> Choose(game, storedBase, storedSource) == Choice(TrimJs(game.s), "game_config")
    ensures game == BaseOther(true) ==> Choose(game, storedBase, storedSource) == Choice(DefaultApiBase, "default")
    ensures !GameOffers(game) && game != BaseOther(true) && NonBlank(storedBase) ==>
              Choose(game, storedBase, storedSource).base == TrimJs(storedBase.value)
              && StoredSource(Choose(game, storedBase, storedSource).source, storedSource)
    ensures !GameOffers(game) && !NonBlank(storedBase) ==> Choose(game, storedBase, storedSource) == Choice(DefaultApiBase, "default")
  {
  }

  /** The source recorded for a stored address: the stored source when non-empty, else 'browser_storage'. */
  predicate StoredSource(source: string, storedSource: Option<string>)
  {
    source != "" && (source == "browser_storage" || Some(source) == storedSource)
  }

  // ---------------------------------------------------------------
  // The fetch wrapper
  // ---------------------------------------------------------------

  predicate EndsWith(s: string, suffix: string)
  {
    |suffix| <= |s| && s[|s| - |suffix|..] == suffix
  }

  /** apiBase.replace(/\/api$/, ''): one trailing "/api" removed. */
  function StripApi(base: string): (r: string)
    ensures EndsWith(base, "/api") ==> r + "/api" == base
    ensures !EndsWith(base, "/api") ==> r == base
  {
    if EndsWith(base, "/api") then base[..|base| - 4] else base
  }

  /**
   * One wrapper, installed while `base` was current: a string resource
   * starting with "/api" is prefixed with the base minus its "/api" when
   * the base is not the default; anything else goes on unchanged.
   */
  function Rewrite(base: string, res: Resource): (r: Resource)
    ensures res.Url? && StartsWith(res.s, "/api") && base != DefaultApiBase ==> r == Url(StripApi(base) + res.s)
    ensures !(res.Url? && StartsWith(res.s, "/api")) || base == DefaultApiBase ==> r == res
  {
    if res.Url? && StartsWith(res.s, "/api") && base != DefaultApiBase then Url(StripApi(base) + res.s) else res
  }

  /**
   * A base ending in "/api" receives the request path after its own
   * "/api": "/api/fares" sent with base "http://h/api" goes to
   * "http://h/api/fares".
   */
  lemma RewriteJoinsBase(base: string, path: string)
    requires EndsWith(base, "/api") && base != DefaultApiBase
    ensures Rewrite(base, Url("/api" + path)) == Url(base + path)
  {
    assert StartsWith("/api" + path, "/api");
    assert StripApi(base) + ("/api" + path) == (StripApi(base) + "/api") + path;
  }

  /** The stack of wrappers, innermost first: the last one installed sees the request first. */
  function Through(wrappers: seq<string>, res: Resource): Resource
  {
    if wrappers == [] then res
    else Through(wrappers[..|wrappers| - 1], Rewrite(wrappers[|wrappers| - 1], res))
  }

  /** A resource no wrapper rewrites reaches the browser's fetch unchanged, however many wrappers there are. */
  lemma {:induction false} ThroughUntouched(wrappers: seq<string>, res: Resource)
    requires !(res.Url? && StartsWith(res.s, "/api"))
    ensures Through(wrappers, res) == res
  {
    if wrappers != [] {
      ThroughUntouched(wrappers[..|wrappers| - 1], res);
    }
  }

  /**
   * The latest wrapper decides when its base is not the default and its
   * rewritten URL no longer starts with "/api" (an absolute address).
   */
  lemma LatestWrapperDecides(wrappers: seq<string>, base: string, path: string)
    requires base != DefaultApiBase && StartsWith(path, "/api")
    requires !StartsWith(StripApi(base) + path, "/api")
    ensures Through(wrappers + [base], Url(path)) == Url(StripApi(base) + path)
  {
    var ws := wrappers + [base];
    assert ws[..|ws| - 1] == wrappers;
    ThroughUntouched(wrappers, Url(StripApi(base) + path));
  }

  /**
   * A wrapper installed while the default was current passes every request
   * on to the wrappers beneath it: returning to the default does not undo an
   * earlier redirect.
   */
  lemma DefaultWrapperTransparent(wrappers: seq<string>, res: Resource)
    ensures Through(wrappers + [DefaultApiBase], res) == Through(wrappers, res)
  {
    var ws := wrappers + [DefaultApiBase];
    assert ws[..|ws| - 1] == wrappers;
  }

  // ---------------------------------------------------------------
  // The manager object
  // ---------------------------------------------------------------

  /**
   * ApiConfigManager with the browser's local storage (`storage`) and the
   * bases captured by the fetch wrappers it has installed (`wrappers`,
   * innermost first).
   */
  class ApiConfigManager {
    var currentApiBase: Option<string>
    var currentSource: Option<string>
    var storage: map<string, string>
    var wrappers: seq<string>

    constructor(storage: map<string, string>)
      ensures currentApiBase == None && currentSource == None
      ensures this.storage == storage && wrappers == []
    {
      currentApiBase := None;
      currentSource := None;
      this.storage := storage;
      wrappers := [];
    }

    /** Where a request made through window.fetch finally goes. */
    function Target(res: Resource): Resource
      reads this
    {
      Through(wrappers, res)
    }

    /**
     * init, run to completion: the configuration request (sent through
     * the wrappers already installed), the choice of address, and one more
     * fetch wrapper capturing it. `game` is what the configuration request
     * yielded.
     */
    method Init(game: GameBase) returns (base: string, configRequest: Resource)
      modifies this`currentApiBase, this`currentSource, this`wrappers
      ensures configRequest == Through(old(wrappers), Url("/api/config"))
      ensures InitDone(old(wrappers), game) && currentApiBase == Some(base)
    {
      configRequest := Target(Url("/api/config"));
      var c := Choose(game, Lookup(storage, KeyApiBase), Lookup(storage, KeyApiSource));
      currentApiBase := Some(c.base);
      currentSource := Some(c.source);
      wrappers := wrappers + [c.base];
      base := c.base;
    }

    /**
     * saveToBrowser: a blank address or one the URL parser refuses
     * (`parses`) is rejected with nothing written; otherwise both keys are
     * stored and init runs again.
     */
    method SaveToBrowser(apiBase: string, parses: bool, game: GameBase) returns (ok: bool)
      modifies this
      ensures ok <==> TrimJs(apiBase) != "" && parses
      ensures !ok ==> storage == old(storage) && wrappers == old(wrappers)
      ensures !ok ==> currentApiBase == old(currentApiBase) && currentSource == old(currentSource)
      ensures ok ==> storage == old(storage)[KeyApiBase := TrimJs(apiBase)][KeyApiSource := "browser_storage"]
      ensures ok ==> Lookup(storage, KeyApiBase) == Some(TrimJs(apiBase)) && Lookup(storage, KeyApiSource) == Some("browser_storage")
      ensures ok ==> InitDone(old(wrappers), game)
    {
      var trimmed := TrimJs(apiBase);
      if trimmed == "" || !parses {
        return false;
      }
      storage := storage[KeyApiBase := trimmed][KeyApiSource := "browser_storage"];
      var _, _ := Init(game);
      ok := true;
    }

    /** The state init leaves behind, given the wrappers before it and the game reply. */
    ghost predicate InitDone(before: seq<string>, game: GameBase)
      reads this
    {
      var c := Choose(game, Lookup(storage, KeyApiBase), Lookup(storage, KeyApiSource));
      currentApiBase == Some(c.base) && currentSource == Some(c.source) && wrappers == before + [c.base]
    }

    /** clearBrowserCache: both keys removed, then init runs again. */
    method ClearBrowserCache(game: GameBase)
      modifies this
      ensures storage == old(storage) - {KeyApiBase, KeyApiSource}
      ensures Lookup(storage, KeyApiBase) == None && Lookup(storage, KeyApiSource) == None
      ensures InitDone(old(wrappers), game)
    {
      storage := storage - {KeyApiBase, KeyApiSource};
      var _, _ := Init(game);
    }

    /**
     * loadFromGameConfig: a usable game address becomes current with source
     * 'game_config'; otherwise (also when `.trim()` throws) nothing changes.
     * No wrapper is installed, so requests keep their previous target.
     */
    method LoadFromGameConfig(game: GameBase)
      modifies this`currentApiBase, this`currentSource
      ensures GameOffers(game) ==> currentApiBase == Some(TrimJs(game.s)) && currentSource == Some("game_config")
      ensures !GameOffers(game) ==> currentApiBase == old(currentApiBase) && currentSource == old(currentSource)
    {
      if game.BaseStr? && TrimJs(game.s) != "" {
        currentApiBase := Some(TrimJs(game.s));
        currentSource := Some("game_config");
      }
    }
  }

  /**
   * Saving an address and then clearing it: the manager reports the
   * default again, but page requests still go to the saved address,
   * because the wrapper installed for the default passes them on to the
   * one installed for the saved address.
   */
  method SaveThenClear(base: string, path: string) returns (m: ApiConfigManager)
    requires EndsWith(base, "/api") && base != DefaultApiBase && !StartsWith(base, "/api") && !IsJsSpace(base[0])
    ensures fresh(m)
    ensures m.currentApiBase == Some(DefaultApiBase) && m.currentSource == Some("default")
    ensures m.storage == map[]
    ensures m.Target(Url("/api" + path)) == Url(base + path)
  {
    TrimFixed(base, IsJsSpace);
    m := new ApiConfigManager(map[]);
    var _, _ := m.Init(NoBase);
    assert m.wrappers == [DefaultApiBase];
    var ok := m.SaveToBrowser(base, true, NoBase);
    assert ok;
    SavedChoice(base);
    assert m.wrappers == [DefaultApiBase, base];
    m.ClearBrowserCache(NoBase);
    assert m.wrappers == [DefaultApiBase, base, DefaultApiBase];
    StaleRedirect(base, path);
  }

  /** With no game address, a saved address without surrounding spaces is chosen, from the browser's storage. */
  lemma SavedChoice(base: string)
    requires base != "" && !IsJsSpace(base[0]) && !IsJsSpace(base[|base| - 1])
    ensures Choose(NoBase, Some(base), Some("browser_storage")) == Choice(base, "browser_storage")
  {
    TrimFixed(base, IsJsSpace);
  }

  /** The wrapper stack left by init, save and clear sends "/api" + path to the saved base. */
  lemma StaleRedirect(base: string, path: string)
    requires EndsWith(base, "/api") && base != DefaultApiBase && !StartsWith(base, "/api")
    ensures Through([DefaultApiBase, base, DefaultApiBase], Url("/api" + path)) == Url(base + path)
  {
    var p := "/api" + path;
    assert [DefaultApiBase, base, DefaultApiBase] == [DefaultApiBase, base] + [DefaultApiBase];
    DefaultWrapperTransparent([DefaultApiBase, base], Url(p));
    assert StartsWith(p, "/api");
    RewriteJoinsBase(base, path);
    assert StripApi(base) + p == base + path;
    assert (base + path)[..4] == base[..4];
    assert [DefaultApiBase, base] == [DefaultApiBase] + [base];
    LatestWrapperDecides([DefaultApiBase], base, p);
  }
}
