/** The tools of an agent, memoised per listed key, and rebuilt on every reload
    (cmd/kikubot/main.go: buildAgentTools, reloadTools, dedupTools, disabledToolNames, filterDisabledTools).
    What a factory returns at a moment is a parameter.  The signature of a catalog row is the row itself. */
module ToolCache {
  import opened McpCatalog
  import opened Strings

  datatype Tool = Tool(name: string, spec: string)

  type Registered = map<string, Factory>

  /** The signature is None for a key that no catalog row names. */
  datatype Cached = Cached(sig: Option<Row>, defs: seq<Tool>)

  type Cache = map<string, Cached>

  /** One build: the registry, the catalog, the agent's list, and what the factory called for list position
      i returns. */
  datatype Build = Build(reg: Registered, rows: seq<Row>, listed: seq<string>, calls: (nat, Factory) -> seq<Tool>)

  /** The last row with the key, usable or not. */
  function Sig(rows: seq<Row>, key: string): Option<Row> {
    if rows == [] then None
    else if RowKey(rows[|rows| - 1]) == key then Some(rows[|rows| - 1])
    else Sig(rows[..|rows| - 1], key)
  }

  // ----- One listed key -----

  predicate Hit(b: Build, key: string, cache: Cache) {
    key in cache && cache[key].sig == Sig(b.rows, key)
  }

  /** The factory of a remote key was called at position i and returned nothing. */
  predicate Fails(b: Build, i: nat, key: string, cache: Cache) {
    && key != "" && !Hit(b, key, cache) && key in b.reg
    && Sig(b.rows, key).Some? && b.calls(i, b.reg[key]) == []
  }

  function Contribution(b: Build, i: nat, key: string, cache: Cache): seq<Tool> {
    if key == "" then []
    else if Hit(b, key, cache) then cache[key].defs
    else if key !in b.reg then []
    else b.calls(i, b.reg[key])
  }

  function Remember(b: Build, i: nat, key: string, cache: Cache): Cache {
    if key == "" || Hit(b, key, cache) then cache
    else if key !in b.reg || Fails(b, i, key, cache) then cache - {key}
    else cache[key := Cached(Sig(b.rows, key), b.calls(i, b.reg[key]))]
  }

  // ----- The list -----

  function KeyAt(b: Build, i: nat): string
    requires i < |b.listed|
  {
    Trim(b.listed[i])
  }

  /** The cache before list position n is handled. */
  function CacheAt(b: Build, n: nat, cache: Cache): Cache
    requires n <= |b.listed|
  {
    if n == 0 then cache
    else
      var before := CacheAt(b, n - 1, cache);
      Remember(b, n - 1, KeyAt(b, n - 1), before)
  }

  function PartAt(b: Build, i: nat, cache: Cache): seq<Tool>
    requires i < |b.listed|
  {
    Contribution(b, i, KeyAt(b, i), CacheAt(b, i, cache))
  }

  predicate FailsAt(b: Build, i: nat, cache: Cache)
    requires i < |b.listed|
  {
    Fails(b, i, KeyAt(b, i), CacheAt(b, i, cache))
  }

  predicate AnyFails(b: Build, n: nat, cache: Cache)
    requires n <= |b.listed|
  {
    n > 0 && (FailsAt(b, n - 1, cache) || AnyFails(b, n - 1, cache))
  }

  lemma {:induction false} AnyFailsMeaning(b: Build, n: nat, cache: Cache)
    requires n <= |b.listed|
    ensures AnyFails(b, n, cache) <==> exists i :: 0 <= i < n && FailsAt(b, i, cache)
  {
    hide FailsAt;
    if n > 0 {
      AnyFailsMeaning(b, n - 1, cache);
    }
  }

  /** The tools of the first n list positions, behind the core tools. */
  function Gathered(b: Build, n: nat, cache: Cache, core: seq<Tool>): seq<Tool>
    requires n <= |b.listed|
  {
    if n == 0 then core else Gathered(b, n - 1, cache, core) + PartAt(b, n - 1, cache)
  }

  function Wanted(listed: seq<string>): set<string> {
    set i | 0 <= i < |listed| && Trim(listed[i]) != "" :: Trim(listed[i])
  }

  function Keep(cache: Cache, wanted: set<string>): Cache {
    map k | k in cache && k in wanted :: cache[k]
  }

  function CacheAfter(b: Build, cache: Cache): Cache {
    Keep(CacheAt(b, |b.listed|, cache), Wanted(b.listed))
  }

  // ----- Names -----

  /** By name, the last tool wins. */
  function Dedup(tools: seq<Tool>): map<string, Tool> {
    if tools == [] then map[]
    else Dedup(tools[..|tools| - 1])[tools[|tools| - 1].name := tools[|tools| - 1]]
  }

  function Without(tools: map<string, Tool>, disabled: set<string>): map<string, Tool> {
    tools - disabled
  }

  function Disabled(common: seq<string>, own: seq<string>): set<string> {
    Wanted(common) + Wanted(own)
  }

  function Final(b: Build, cache: Cache, core: seq<Tool>, disabled: set<string>): map<string, Tool> {
    Without(Dedup(Gathered(b, |b.listed|, cache, core)), disabled)
  }

  /** The process state; the interval is the pause before a remote key that returned nothing is retried. */
  class Tools {
    const core: seq<Tool>
    const interval: nat
    var toolCache: Cache
    var mcpRetryAt: Option<int>

    constructor (core: seq<Tool>, interval: nat)
      ensures this.core == core && this.interval == interval && toolCache == map[] && mcpRetryAt == None
    {
      this.core, this.interval := core, interval;
      toolCache, mcpRetryAt := map[], None;
    }

    /** `common` and `own` are the names disabled for all agents and for this one. */
    method BuildAgentTools(b: Build, common: seq<string>, own: seq<string>, now: int) returns (tools: map<string, Tool>)
      modifies this
      ensures tools == Final(b, old(toolCache), core, Disabled(common, own))
      ensures toolCache == CacheAfter(b, old(toolCache))
      ensures (mcpRetryAt == None || mcpRetryAt == Some(now + interval))
      ensures mcpRetryAt.Some? <==> AnyFails(b, |b.listed|, old(toolCache))
    {
      var agentTools, wanted := GatherTools(b, now);
      ForgetUnlisted(wanted);
      var byName := DedupTools(agentTools);
      var disabled := DisabledToolNames(common, own);
      tools := FilterDisabledTools(byName, disabled);
    }

    /** The loop over the listed keys. */
    method GatherTools(b: Build, now: int) returns (agentTools: seq<Tool>, wanted: set<string>)
      modifies this
      ensures agentTools == Gathered(b, |b.listed|, old(toolCache), core) && wanted == Wanted(b.listed)
      ensures toolCache == CacheAt(b, |b.listed|, old(toolCache))
      ensures (mcpRetryAt == None || mcpRetryAt == Some(now + interval))
      ensures mcpRetryAt.Some? <==> AnyFails(b, |b.listed|, old(toolCache))
    {
      assert Wanted(b.listed[..0]) == {};
      hide Wanted, Sig, PartAt, FailsAt, Remember, AreSignatures;
      ghost var was := toolCache;
      agentTools := core;
      mcpRetryAt := None;
      var mcpSig := Signatures(b.rows);
      wanted := {};
      for i := 0 to |b.listed|
        invariant wanted == Wanted(b.listed[..i])
        invariant toolCache == CacheAt(b, i, was)
        invariant agentTools == Gathered(b, i, was, core)
        invariant mcpRetryAt == None || mcpRetryAt == Some(now + interval)
        invariant mcpRetryAt.Some? <==> AnyFails(b, i, was)
      {
        wanted := AddWanted(b.listed, i, wanted);
        var got := HandleListed(b, i, mcpSig, now, was);
        agentTools := agentTools + got;
      }
      assert b.listed[..|b.listed|] == b.listed;
    }

    method HandleListed(b: Build, i: nat, mcpSig: map<string, Row>, now: int, ghost was: Cache) returns (got: seq<Tool>)
      requires i < |b.listed| && AreSignatures(b.rows, mcpSig) && toolCache == CacheAt(b, i, was)
      modifies this
      ensures toolCache == CacheAt(b, i + 1, was) && got == PartAt(b, i, was)
      ensures mcpRetryAt == if FailsAt(b, i, was) && old(mcpRetryAt).None? then Some(now + interval)
                            else old(mcpRetryAt)
    {
      var key := Trim(b.listed[i]);
      got := HandleKey(b, i, key, if key in mcpSig then Some(mcpSig[key]) else None, now);
    }

    /** The body of the loop over the listed keys. */
    method HandleKey(b: Build, i: nat, key: string, sig: Option<Row>, now: int) returns (got: seq<Tool>)
      requires sig == Sig(b.rows, key)
      modifies this
      ensures toolCache == Remember(b, i, key, old(toolCache))
      ensures got == Contribution(b, i, key, old(toolCache))
      ensures mcpRetryAt == if Fails(b, i, key, old(toolCache)) && old(mcpRetryAt).None? then Some(now + interval)
                            else old(mcpRetryAt)
    {
      if key == "" {
        return [];
      }
      if key in toolCache && toolCache[key].sig == sig {
        return toolCache[key].defs;
      }
      if key !in b.reg {
        toolCache := toolCache - {key};
        return [];
      }
      var t := b.calls(i, b.reg[key]);
      if sig.Some? && t == [] {
        toolCache := toolCache - {key};
        if mcpRetryAt.None? {
          mcpRetryAt := Some(now + interval);
        }
        return [];
      }
      toolCache := toolCache[key := Cached(sig, t)];
      return t;
    }

    method ForgetUnlisted(wanted: set<string>)
      modifies this`toolCache
      ensures toolCache == Keep(old(toolCache), wanted)
    {
      var todo := toolCache.Keys;
      while todo != {}
        invariant todo <= toolCache.Keys <= old(toolCache).Keys
        invariant forall k :: k in old(toolCache) ==> k in toolCache || (k !in wanted && k !in todo)
        invariant forall k :: k in toolCache ==> toolCache[k] == old(toolCache)[k] && (k in todo || k in wanted)
        decreases todo
      {
        var key :| key in todo;
        todo := todo - {key};
        if key !in wanted {
          toolCache := toolCache - {key};
        }
      }
    }
  }

  ghost predicate AreSignatures(rows: seq<Row>, mcpSig: map<string, Row>) {
    forall key :: Sig(rows, key) == if key in mcpSig then Some(mcpSig[key]) else None
  }

  method Signatures(rows: seq<Row>) returns (mcpSig: map<string, Row>)
    ensures AreSignatures(rows, mcpSig)
  {
    mcpSig := map[];
    for i := 0 to |rows|
      invariant AreSignatures(rows[..i], mcpSig)
    {
      assert rows[..i + 1][..i] == rows[..i];
      mcpSig := mcpSig[RowKey(rows[i]) := rows[i]];
    }
    assert rows[..|rows|] == rows;
  }

  lemma {:induction false} WantedSnoc(listed: seq<string>, i: nat)
    requires i < |listed|
    ensures Wanted(listed[..i + 1])
         == Wanted(listed[..i]) + (if Trim(listed[i]) != "" then {Trim(listed[i])} else {})
  {
    var a, b := listed[..i], listed[..i + 1];
    forall k | k in Wanted(a) ensures k in Wanted(b) {
      var j :| 0 <= j < |a| && Trim(a[j]) == k && k != "";
      assert b[j] == a[j];
    }
    forall k | k in Wanted(b) && k != Trim(listed[i]) ensures k in Wanted(a) {
      var j :| 0 <= j < |b| && Trim(b[j]) == k && k != "";
      assert a[j] == b[j];
    }
    if Trim(listed[i]) != "" {
      assert Trim(b[i]) in Wanted(b);
    }
  }

  method AddWanted(listed: seq<string>, i: nat, wanted: set<string>) returns (more: set<string>)
    requires i < |listed| && wanted == Wanted(listed[..i])
    ensures more == Wanted(listed[..i + 1])
  {
    WantedSnoc(listed, i);
    var key := Trim(listed[i]);
    more := if key != "" then wanted + {key} else wanted;
  }

  method DedupTools(toolList: seq<Tool>) returns (toolMap: map<string, Tool>)
    ensures toolMap == Dedup(toolList)
  {
    toolMap := map[];
    for i := 0 to |toolList|
      invariant toolMap == Dedup(toolList[..i])
    {
      assert toolList[..i + 1][..i] == toolList[..i];
      toolMap := toolMap[toolList[i].name := toolList[i]];
    }
    assert toolList[..|toolList|] == toolList;
  }

  method DisabledToolNames(common: seq<string>, own: seq<string>) returns (disabled: set<string>)
    ensures disabled == Disabled(common, own)
  {
    disabled := {};
    for i := 0 to |common|
      invariant disabled == Wanted(common[..i])
    {
      disabled := AddWanted(common, i, disabled);
    }
    assert common[..|common|] == common;
    for i := 0 to |own|
      invariant disabled == Wanted(common) + Wanted(own[..i])
    {
      WantedSnoc(own, i);
      var name := Trim(own[i]);
      if name != "" {
        disabled := disabled + {name};
      }
    }
    assert own[..|own|] == own;
  }

  method FilterDisabledTools(toolList: map<string, Tool>, disabled: set<string>) returns (filtered: map<string, Tool>)
    ensures filtered == Without(toolList, disabled)
  {
    if disabled == {} {
      return toolList;
    }
    filtered := map k | k in toolList && k !in disabled :: toolList[k];
  }

  // ----- The memo is never stale -----

  /** What a factory returns when it returns anything. */
  type Results = Factory -> seq<Tool>

  /** A remote factory may fail for the moment; otherwise results depend on the factory alone. */
  ghost predicate Steady(b: Build, result: Results) {
    forall i, f :: b.calls(i, f) == result(f) || (f.Remote? && b.calls(i, f) == [])
  }

  ghost predicate LocalOnly(bi: Builtins) {
    forall k :: k in bi ==> bi[k].Builtin?
  }

  /** Every entry is the result of the factory that its key and signature stand for. */
  ghost predicate CacheOk(bi: Builtins, result: Results, cache: Cache) {
    forall k :: k in cache ==> EntryOk(bi, result, k, cache[k])
  }

  ghost predicate EntryOk(bi: Builtins, result: Results, k: string, c: Cached) {
    match c.sig
    case None => k in bi && c.defs == result(bi[k])
    case Some(r) =>
      && RowKey(r) == k && (k in bi || Usable(bi, r)) && c.defs != []
      && c.defs == result(if k in bi then bi[k] else FactoryOf(r).value)
  }

  /** The registry holds what the built-ins and the last row of the key say. */
  ghost predicate RegMatches(bi: Builtins, b: Build) {
    forall k :: RegMatchesAt(bi, b, k)
  }

  ghost predicate RegMatchesAt(bi: Builtins, b: Build, k: string) {
    var sig := Sig(b.rows, k);
    Lookup(b.reg, k)
    == if k in bi then Some(bi[k]) else if sig.Some? && Usable(bi, sig.value) then FactoryOf(sig.value) else None
  }

  lemma {:induction false} SigIsRow(rows: seq<Row>, k: string)
    ensures Sig(rows, k).Some? ==> RowKey(Sig(rows, k).value) == k
  {
    if rows != [] {
      SigIsRow(rows[..|rows| - 1], k);
    }
  }

  lemma {:induction false} OneKey(bi: Builtins, result: Results, b: Build, i: nat, key: string, cache: Cache)
    requires LocalOnly(bi) && Steady(b, result) && RegMatches(bi, b) && CacheOk(bi, result, cache)
    ensures CacheOk(bi, result, Remember(b, i, key, cache))
    ensures Contribution(b, i, key, cache)
         == if key != "" && key in b.reg && !Fails(b, i, key, cache) then result(b.reg[key]) else []
  {
    assert RegMatchesAt(bi, b, key);
    SigIsRow(b.rows, key);
    if key != "" && key in b.reg {
      assert b.calls(i, b.reg[key]) == result(b.reg[key]) || (b.reg[key].Remote? && b.calls(i, b.reg[key]) == []);
    }
    if Hit(b, key, cache) {
      assert EntryOk(bi, result, key, cache[key]);
    }
  }

  lemma {:induction false} CacheAtOk(bi: Builtins, result: Results, b: Build, n: nat, cache: Cache)
    requires LocalOnly(bi) && Steady(b, result) && RegMatches(bi, b) && CacheOk(bi, result, cache)
    requires n <= |b.listed|
    ensures CacheOk(bi, result, CacheAt(b, n, cache))
  {
    if n > 0 {
      CacheAtOk(bi, result, b, n - 1, cache);
      CacheStepOk(bi, result, b, n, CacheAt(b, n - 1, cache), CacheAt(b, n, cache));
    }
  }

  lemma {:induction false} CacheStepOk(bi: Builtins, result: Results, b: Build, n: nat, before: Cache, after: Cache)
    requires LocalOnly(bi) && Steady(b, result) && RegMatches(bi, b) && CacheOk(bi, result, before)
    requires 0 < n <= |b.listed| && after == Remember(b, n - 1, KeyAt(b, n - 1), before)
    ensures CacheOk(bi, result, after)
  {
    OneKey(bi, result, b, n - 1, KeyAt(b, n - 1), before);
  }

  /** Each listed key contributes its factory's result for the current catalog row, unless it is unknown or
      its remote factory was called in this build and returned nothing. */
  lemma {:induction false} PartMeaning(bi: Builtins, result: Results, b: Build, i: nat, cache: Cache)
    requires LocalOnly(bi) && Steady(b, result) && RegMatches(bi, b) && CacheOk(bi, result, cache)
    requires i < |b.listed|
    ensures var key := KeyAt(b, i);
            PartAt(b, i, cache) == if key != "" && key in b.reg && !FailsAt(b, i, cache) then result(b.reg[key]) else []
  {
    CacheAtOk(bi, result, b, i, cache);
    OneKey(bi, result, b, i, KeyAt(b, i), CacheAt(b, i, cache));
  }

  // ----- Over any sequence of reloads -----

  datatype Reload = Reload(rows: seq<Row>, listed: seq<string>, calls: (nat, Factory) -> seq<Tool>)

  datatype State = State(catalog: Catalog, cache: Cache)

  function BuildOf(s: State, e: Reload): Build {
    Build(RegisterTable(s.catalog, e.rows).registry, e.rows, e.listed, e.calls)
  }

  function Step(s: State, e: Reload): State {
    State(RegisterTable(s.catalog, e.rows), CacheAfter(BuildOf(s, e), s.cache))
  }

  function After(s: State, es: seq<Reload>): State {
    if es == [] then s else Step(After(s, es[..|es| - 1]), es[|es| - 1])
  }

  function Start(bi: Builtins, texts: map<string, string>): State {
    State(Catalog(bi, {}, texts), map[])
  }

  /** The first and the last usable row of the key make the same factory, and no unusable one is behind them:
      the registry holds the factory of the row that is the key's signature. */
  ghost predicate SettledAt(bi: Builtins, rows: seq<Row>, k: string) {
    && Made(FirstUsable(bi, rows, k)) == Made(LastUsable(bi, rows, k))
    && (LastUsable(bi, rows, k).Some? ==> Sig(rows, k) == LastUsable(bi, rows, k))
  }

  ghost predicate Settled(bi: Builtins, rows: seq<Row>) {
    forall k :: SettledAt(bi, rows, k)
  }

  ghost predicate GoodReload(bi: Builtins, s: State, e: Reload, result: Results) {
    Settled(bi, e.rows) && Steady(BuildOf(s, e), result)
  }

  ghost predicate GoodRun(bi: Builtins, s: State, es: seq<Reload>, result: Results) {
    forall i :: 0 <= i < |es| ==> GoodReload(bi, s, es[i], result)
  }

  ghost predicate StateOk(bi: Builtins, result: Results, s: State) {
    Inv(bi, s.catalog) && CacheOk(bi, result, s.cache)
  }

  lemma {:induction false} LastIsSig(bi: Builtins, rows: seq<Row>, k: string)
    requires DistinctRows(rows)
    ensures var sig := Sig(rows, k);
            FirstUsable(bi, rows, k) == if sig.Some? && Usable(bi, sig.value) then sig else None
  {
    hide Usable, RowKey;
    if rows != [] {
      var init, last := rows[..|rows| - 1], rows[|rows| - 1];
      LastIsSig(bi, init, k);
      FirstSnoc(bi, init, last, k);
      assert rows == init + [last];
      if RowKey(last) == k {
        NoRowNamed(bi, init, k);
      }
    }
  }

  lemma {:induction false} FirstSnoc(bi: Builtins, rows: seq<Row>, r: Row, k: string)
    ensures FirstUsable(bi, rows + [r], k)
         == if FirstUsable(bi, rows, k).Some? then FirstUsable(bi, rows, k)
            else if Usable(bi, r) && RowKey(r) == k then Some(r) else None
  {
    if rows == [] {
      assert [] + [r] == [r] && [r][1..] == [];
    } else {
      assert (rows + [r])[1..] == rows[1..] + [r];
      FirstSnoc(bi, rows[1..], r, k);
    }
  }

  lemma {:induction false} LastSnoc(bi: Builtins, rows: seq<Row>, r: Row, k: string)
    ensures LastUsable(bi, rows + [r], k)
         == if Usable(bi, r) && RowKey(r) == k then Some(r) else LastUsable(bi, rows, k)
  {
    if rows == [] {
      assert [] + [r] == [r] && [r][1..] == [];
    } else {
      assert (rows + [r])[1..] == rows[1..] + [r];
      LastSnoc(bi, rows[1..], r, k);
    }
  }

  /** A usable signature is the last usable row, and a key with a usable row has a signature. */
  lemma {:induction false} UsableSig(bi: Builtins, rows: seq<Row>, k: string)
    ensures Sig(rows, k).Some? && Usable(bi, Sig(rows, k).value) ==> LastUsable(bi, rows, k) == Sig(rows, k)
    ensures LastUsable(bi, rows, k).Some? ==> Sig(rows, k).Some?
  {
    hide Usable, RowKey;
    if rows != [] {
      var init, last := rows[..|rows| - 1], rows[|rows| - 1];
      assert rows == init + [last];
      LastSnoc(bi, init, last, k);
      UsableSig(bi, init, k);
    }
  }

  lemma {:induction false} DistinctRowsAreSettled(bi: Builtins, rows: seq<Row>)
    requires DistinctRows(rows)
    ensures Settled(bi, rows)
  {
    forall k ensures SettledAt(bi, rows, k) {
      SameEnds(bi, rows, k);
      LastIsSig(bi, rows, k);
    }
  }

  lemma {:induction false} ReloadMatches(bi: Builtins, s: State, e: Reload)
    requires Inv(bi, s.catalog) && Settled(bi, e.rows)
    ensures Mirrors(bi, RegisterTable(s.catalog, e.rows), e.rows)
    ensures RegMatches(bi, BuildOf(s, e))
  {
    forall k ensures Made(FirstUsable(bi, e.rows, k)) == Made(LastUsable(bi, e.rows, k)) {
      assert SettledAt(bi, e.rows, k);
    }
    TableMirrors(bi, s.catalog, e.rows);
    forall k ensures RegMatchesAt(bi, BuildOf(s, e), k) {
      UsableSig(bi, e.rows, k);
      FirstOrLast(bi, e.rows, k);
      assert SettledAt(bi, e.rows, k);
      assert MirroredAt(bi, RegisterTable(s.catalog, e.rows), e.rows, k);
    }
  }

  lemma {:induction false} StepKeepsOk(bi: Builtins, result: Results, s: State, e: Reload)
    requires LocalOnly(bi) && StateOk(bi, result, s) && GoodReload(bi, s, e, result)
    ensures StateOk(bi, result, Step(s, e))
  {
    RegisteredOf(bi, s.catalog, e.rows);
    ReloadMatches(bi, s, e);
    CacheAtOk(bi, result, BuildOf(s, e), |e.listed|, s.cache);
  }

  lemma {:induction false} SteadyAnywhere(bi: Builtins, s: State, t: State, e: Reload, result: Results)
    ensures GoodReload(bi, s, e, result) <==> GoodReload(bi, t, e, result)
  {
    if GoodReload(bi, s, e, result) {
      forall i, f ensures e.calls(i, f) == result(f) || (f.Remote? && e.calls(i, f) == []) {
        assert BuildOf(s, e).calls(i, f) == e.calls(i, f);
      }
    }
    if GoodReload(bi, t, e, result) {
      forall i, f ensures e.calls(i, f) == result(f) || (f.Remote? && e.calls(i, f) == []) {
        assert BuildOf(t, e).calls(i, f) == e.calls(i, f);
      }
    }
  }

  lemma {:induction false} RunKeepsOk(bi: Builtins, texts: map<string, string>, result: Results, es: seq<Reload>)
    requires LocalOnly(bi) && GoodRun(bi, Start(bi, texts), es, result)
    ensures StateOk(bi, result, After(Start(bi, texts), es))
  {
    if es != [] {
      var init, last := es[..|es| - 1], es[|es| - 1];
      var s := After(Start(bi, texts), init);
      RunKeepsOk(bi, texts, result, init);
      SteadyAnywhere(bi, Start(bi, texts), s, last, result);
      StepKeepsOk(bi, result, s, last);
    }
  }

  /** After any sequence of reloads, one more leaves the registry equal to the built-ins plus the usable rows
      of its own table, gives each listed key its factory's current result or nothing if the call came back
      empty, and keeps no key that is not listed. */
  lemma {:induction false} ReloadIsCurrent(bi: Builtins, texts: map<string, string>, result: Results, es: seq<Reload>,
                                           e: Reload)
    requires LocalOnly(bi) && GoodRun(bi, Start(bi, texts), es + [e], result)
    ensures var s := After(Start(bi, texts), es);
            var b := BuildOf(s, e);
            && Mirrors(bi, Step(s, e).catalog, e.rows)
            && Step(s, e).cache.Keys <= Wanted(e.listed)
            && forall i :: 0 <= i < |e.listed| ==>
                 PartAt(b, i, s.cache) == if KeyAt(b, i) != "" && KeyAt(b, i) in b.reg && !FailsAt(b, i, s.cache)
                                          then result(b.reg[KeyAt(b, i)]) else []
  {
    var start := Start(bi, texts);
    var s := After(start, es);
    assert GoodRun(bi, start, es, result) by {
      forall i | 0 <= i < |es| ensures GoodReload(bi, start, es[i], result) {
        assert (es + [e])[i] == es[i];
      }
    }
    assert (es + [e])[|es|] == e;
    RunKeepsOk(bi, texts, result, es);
    SteadyAnywhere(bi, start, s, e, result);
    ReloadMatches(bi, s, e);
    forall i | 0 <= i < |e.listed|
      ensures var b := BuildOf(s, e);
              PartAt(b, i, s.cache) == if KeyAt(b, i) != "" && KeyAt(b, i) in b.reg && !FailsAt(b, i, s.cache)
                                       then result(b.reg[KeyAt(b, i)]) else []
    {
      PartMeaning(bi, result, BuildOf(s, e), i, s.cache);
    }
  }

  // ----- The memo agrees with building from scratch -----

  lemma {:induction false} SameGathered(b: Build, n: nat, c: Cache, d: Cache, core: seq<Tool>)
    requires n <= |b.listed| && forall i :: 0 <= i < n ==> PartAt(b, i, c) == PartAt(b, i, d)
    ensures Gathered(b, n, c, core) == Gathered(b, n, d, core)
  {
    if n > 0 {
      SameGathered(b, n - 1, c, d, core);
    }
  }

  /** If no factory fails for the moment, the tools are those of a build with an empty cache. */
  lemma {:induction false} MemoAgreesWithScratch(bi: Builtins, texts: map<string, string>, result: Results,
                                                 es: seq<Reload>, e: Reload, core: seq<Tool>, disabled: set<string>)
    requires LocalOnly(bi) && GoodRun(bi, Start(bi, texts), es + [e], result)
    requires forall i, f :: e.calls(i, f) == result(f)
    ensures var s := After(Start(bi, texts), es);
            Final(BuildOf(s, e), s.cache, core, disabled) == Final(BuildOf(s, e), map[], core, disabled)
  {
    hide PartAt, FailsAt, CacheOk, Settled, Mirrors, RegMatches;
    var start := Start(bi, texts);
    var s := After(start, es);
    var b := BuildOf(s, e);
    ReloadIsCurrent(bi, texts, result, es, e);
    assert (es + [e])[|es|] == e;
    SteadyAnywhere(bi, start, s, e, result);
    assert GoodRun(bi, start, es, result) by {
      forall i | 0 <= i < |es| ensures GoodReload(bi, start, es[i], result) {
        assert (es + [e])[i] == es[i];
      }
    }
    RunKeepsOk(bi, texts, result, es);
    ReloadMatches(bi, s, e);
    forall i | 0 <= i < |e.listed| ensures PartAt(b, i, s.cache) == PartAt(b, i, map[]) {
      PartMeaning(bi, result, b, i, s.cache);
      PartMeaning(bi, result, b, i, map[]);
      FailsEmpty(result, b, i, s.cache);
      FailsEmpty(result, b, i, map[]);
    }
    SameGathered(b, |e.listed|, s.cache, map[], core);
  }

  lemma {:induction false} FailsEmpty(result: Results, b: Build, i: nat, cache: Cache)
    requires i < |b.listed| && forall j, f :: b.calls(j, f) == result(f)
    ensures FailsAt(b, i, cache) ==> result(b.reg[KeyAt(b, i)]) == []
  {
  }

  // ----- Tables that are not settled -----

  /** Every factory returns one tool, under a name that tells whether it is the stale one. */
  function Shown(stale: Factory, f: Factory): seq<Tool> {
    [Tool(if f == stale then "stale" else "current", "")]
  }

  function Showing(stale: Factory, rows: seq<Row>, listed: string): Reload {
    Reload(rows, [listed], (i: nat, f: Factory) => Shown(stale, f))
  }

  /** The listed key shows something else than its factory's result. */
  ghost predicate ShowsStale(s: State, e: Reload, result: Results) {
    var b := BuildOf(s, e);
    && |e.listed| == 1 && Steady(b, result) && KeyAt(b, 0) in b.reg && !FailsAt(b, 0, s.cache)
    && PartAt(b, 0, s.cache) != result(b.reg[KeyAt(b, 0)])
  }

  lemma {:induction false} FirstBuild(bi: Builtins, texts: map<string, string>, rows: seq<Row>, listed: string,
                                      stale: Factory)
    requires Made(FirstUsable(bi, rows, Trim(listed))) == Some(stale)
    ensures var k := Trim(listed);
            var s := Step(Start(bi, texts), Showing(stale, rows, listed));
            && Inv(bi, s.catalog) && k in s.catalog.registered
            && k in s.cache && s.cache[k] == Cached(Sig(rows, k), Shown(stale, stale))
  {
    var k := Trim(listed);
    var start, e := Start(bi, texts), Showing(stale, rows, listed);
    var b := BuildOf(start, e);
    TableAt(bi, start.catalog, rows, k);
    assert KeyAt(b, 0) == k && k != "";
    assert CacheAt(b, 0, map[]) == map[];
    assert CacheAt(b, 1, map[]) == Remember(b, 0, k, map[]);
    assert Trim(e.listed[0]) in Wanted(e.listed);
  }

  lemma {:induction false} StaleBehind(bi: Builtins, texts: map<string, string>, before: seq<Row>, rows: seq<Row>,
                                       listed: string, stale: Factory)
    requires var k := Trim(listed);
             && Made(FirstUsable(bi, before, k)) == Some(stale) && LastUsable(bi, rows, k).Some?
             && Made(LastUsable(bi, rows, k)) != Some(stale) && Sig(before, k) == Sig(rows, k)
    ensures ShowsStale(Step(Start(bi, texts), Showing(stale, before, listed)), Showing(stale, rows, listed),
                       f => Shown(stale, f))
  {
    var k := Trim(listed);
    var s, e := Step(Start(bi, texts), Showing(stale, before, listed)), Showing(stale, rows, listed);
    FirstBuild(bi, texts, before, listed, stale);
    TableAt(bi, s.catalog, rows, k);
    var b := BuildOf(s, e);
    assert KeyAt(b, 0) == k;
    assert CacheAt(b, 0, s.cache) == s.cache;
    assert Hit(b, k, s.cache);
  }

  /** Whatever table is not settled: after some other reload, or the same one, a key of it keeps the tools of
      a factory that the registry no longer holds. */
  lemma {:induction false} UnsettledGoesStale(bi: Builtins, texts: map<string, string>, rows: seq<Row>, k: string)
    returns (before: Reload, e: Reload, result: Results)
    requires !SettledAt(bi, rows, k)
    ensures e.rows == rows && Steady(BuildOf(Start(bi, texts), before), result)
    ensures ShowsStale(Step(Start(bi, texts), before), e, result)
  {
    FirstOrLast(bi, rows, k);
    UsableSig(bi, rows, k);
    SigIsRow(rows, k);
    var first, sig := FirstUsable(bi, rows, k).value, Sig(rows, k).value;
    var earlier, edited := rows, first;
    if Made(FirstUsable(bi, rows, k)) == Made(LastUsable(bi, rows, k)) {
      edited := first.(url := first.url + "!");
      earlier := [edited, sig];
      EditedUrl(bi, first);
      assert earlier[..1] == [edited];
    }
    var stale := FactoryOf(edited).value;
    StaleBehind(bi, texts, earlier, rows, first.key, stale);
    before, e := Showing(stale, earlier, first.key), Showing(stale, rows, first.key);
    result := f => Shown(stale, f);
  }

  lemma {:induction false} TwoRows(bi: Builtins, r: Row, q: Row, k: string)
    requires Usable(bi, r) && Usable(bi, q) && RowKey(r) == RowKey(q)
    ensures FirstUsable(bi, [r, q], k) == if k == RowKey(r) then Some(r) else None
    ensures LastUsable(bi, [r, q], k) == if k == RowKey(r) then Some(q) else None
    ensures Sig([r, q], k) == if k == RowKey(r) then Some(q) else None
  {
    hide Usable, RowKey;
    var rows := [r, q];
    assert rows[1..] == [q] && [q][1..] == [] && rows[..1] == [r] && [r][..0] == [];
    assert FirstUsable(bi, [q], k) == LastUsable(bi, [q], k) == if k == RowKey(q) then Some(q) else None;
    assert Sig([r], k) == if k == RowKey(r) then Some(r) else None;
  }

  /** A usable row repeated with changes that its factory does not read, the description or white space around
      a field, is settled. */
  lemma {:induction false} RepeatedRowIsSettled(bi: Builtins, r: Row, q: Row)
    requires Usable(bi, r) && Usable(bi, q) && FactoryOf(q) == FactoryOf(r)
    ensures Settled(bi, [r, q])
  {
    SameFactorySameKey(r, q);
    hide Usable, RowKey, FactoryOf, FirstUsable, LastUsable, Sig;
    forall k ensures SettledAt(bi, [r, q], k) {
      TwoRows(bi, r, q, k);
    }
  }

  lemma {:induction false} DescriptionIsNotRead(bi: Builtins, r: Row, text: string)
    requires Usable(bi, r)
    ensures Settled(bi, [r, r.(description := text)])
  {
    var q := r.(description := text);
    assert Usable(bi, q) && FactoryOf(q) == FactoryOf(r);
    RepeatedRowIsSettled(bi, r, q);
  }

  lemma {:induction false} SameFactorySameKey(r: Row, q: Row)
    requires FactoryOf(r).Some? && FactoryOf(q) == FactoryOf(r)
    ensures RowKey(r) == RowKey(q)
  {
    assert FactoryOf(r).value.server.name == RowKey(r) && FactoryOf(q).value.server.name == RowKey(q);
  }

  // ----- Names -----

  lemma {:induction false} LastNamed(tools: seq<Tool>, name: string) returns (i: nat)
    requires name in Dedup(tools)
    ensures i < |tools| && tools[i] == Dedup(tools)[name] && tools[i].name == name
    ensures forall j :: i < j < |tools| ==> tools[j].name != name
  {
    var init, last := tools[..|tools| - 1], tools[|tools| - 1];
    if last.name == name {
      return |tools| - 1;
    }
    i := LastNamed(init, name);
    forall j | i < j < |tools| ensures tools[j].name != name {
      assert j < |init| ==> tools[j] == init[j];
    }
  }

  lemma {:induction false} NamedIsKept(tools: seq<Tool>, i: nat)
    requires i < |tools|
    ensures tools[i].name in Dedup(tools)
  {
    if i < |tools| - 1 {
      NamedIsKept(tools[..|tools| - 1], i);
    }
  }

  /** A tool is offered under a name exactly if some gathered tool has it and it is not disabled; it is the
      last such tool. */
  lemma {:induction false} LastNameWins(tools: seq<Tool>, disabled: set<string>, name: string)
    ensures name in Without(Dedup(tools), disabled) <==>
            name !in disabled && exists i :: 0 <= i < |tools| && tools[i].name == name
    ensures name in Without(Dedup(tools), disabled) ==>
              exists i :: 0 <= i < |tools| && tools[i] == Dedup(tools)[name] && tools[i].name == name
                          && forall j :: i < j < |tools| ==> tools[j].name != name
  {
    if name in Dedup(tools) {
      var i := LastNamed(tools, name);
    }
    if i :| 0 <= i < |tools| && tools[i].name == name {
      NamedIsKept(tools, i);
    }
  }

  // ----- Which tools are offered -----

  lemma {:induction false} DisabledMeaning(common: seq<string>, own: seq<string>, name: string)
    ensures name in Disabled(common, own) <==>
              name != "" && ((exists i :: 0 <= i < |common| && Trim(common[i]) == name)
                             || (exists i :: 0 <= i < |own| && Trim(own[i]) == name))
  {
  }

  /** The tools gathered are the core tools and then, list position by list position, the parts. */
  lemma {:induction false} GatheredMeaning(b: Build, n: nat, cache: Cache, core: seq<Tool>, t: Tool)
    requires n <= |b.listed|
    ensures core <= Gathered(b, n, cache, core)
    ensures t in Gathered(b, n, cache, core) <==> t in core || exists i :: 0 <= i < n && t in PartAt(b, i, cache)
    ensures n > 0 ==> Gathered(b, n, cache, core) == Gathered(b, n - 1, cache, core) + PartAt(b, n - 1, cache)
  {
    hide PartAt;
    if n > 0 {
      GatheredMeaning(b, n - 1, cache, core, t);
    }
  }

  /** A name is offered exactly if a core tool or a tool of some list position has it and it is not disabled. */
  lemma {:induction false} OfferedMeaning(b: Build, cache: Cache, core: seq<Tool>, disabled: set<string>, name: string)
    ensures name in Final(b, cache, core, disabled) <==>
              && name !in disabled
              && (HasName(core, name) || exists i :: 0 <= i < |b.listed| && HasName(PartAt(b, i, cache), name))
  {
    var all := Gathered(b, |b.listed|, cache, core);
    LastNameWins(all, disabled, name);
    hide Gathered, PartAt, Dedup;
    forall t ensures t in all <==> t in core || exists i :: 0 <= i < |b.listed| && t in PartAt(b, i, cache) {
      GatheredMeaning(b, |b.listed|, cache, core, t);
    }
    NamedMember(all, name);
    NamedMember(core, name);
    forall i | 0 <= i < |b.listed|
      ensures HasName(PartAt(b, i, cache), name) <==> exists t :: t in PartAt(b, i, cache) && t.name == name
    {
      NamedMember(PartAt(b, i, cache), name);
    }
  }

  predicate HasName(tools: seq<Tool>, name: string) {
    exists i :: 0 <= i < |tools| && tools[i].name == name
  }

  lemma {:induction false} NamedMember(tools: seq<Tool>, name: string)
    ensures HasName(tools, name) <==> exists t :: t in tools && t.name == name
  {
    if HasName(tools, name) {
      var i :| 0 <= i < |tools| && tools[i].name == name;
      assert tools[i] in tools;
    }
  }

  // ----- The memo is used -----

  lemma {:induction false} MemoStays(b: Build, n: nat, cache: Cache, k: string)
    requires n <= |b.listed| && k in cache && cache[k].sig == Sig(b.rows, k)
    ensures k in CacheAt(b, n, cache) && CacheAt(b, n, cache)[k] == cache[k]
  {
    if n > 0 {
      MemoStays(b, n - 1, cache, k);
    }
  }

  /** A key that is cached under its current row is not asked again: it contributes what is cached, whatever its
      factory would return now, and stays cached while it is listed. */
  lemma {:induction false} MemoIsUsed(b: Build, cache: Cache, i: nat)
    requires i < |b.listed| && KeyAt(b, i) != ""
    requires KeyAt(b, i) in cache && cache[KeyAt(b, i)].sig == Sig(b.rows, KeyAt(b, i))
    ensures var k := KeyAt(b, i);
            && PartAt(b, i, cache) == cache[k].defs && !FailsAt(b, i, cache)
            && k in CacheAfter(b, cache) && CacheAfter(b, cache)[k] == cache[k]
  {
    MemoStays(b, i, cache, KeyAt(b, i));
    MemoStays(b, |b.listed|, cache, KeyAt(b, i));
    assert Trim(b.listed[i]) in Wanted(b.listed);
  }

  /** A key that is asked and does not fail is cached under its current row with what it returned, and so not asked
      by the next reload of the same table. */
  lemma {:induction false} AskedIsCached(b: Build, cache: Cache, i: nat)
    requires i < |b.listed| && KeyAt(b, i) != "" && KeyAt(b, i) in b.reg && !FailsAt(b, i, cache)
    ensures var k := KeyAt(b, i);
            && k in CacheAfter(b, cache)
            && CacheAfter(b, cache)[k] == Cached(Sig(b.rows, k), PartAt(b, i, cache))
  {
    var k := KeyAt(b, i);
    var next := CacheAt(b, i + 1, cache);
    assert next == Remember(b, i, k, CacheAt(b, i, cache));
    assert k in next && next[k] == Cached(Sig(b.rows, k), PartAt(b, i, cache));
    StaysCached(b, i + 1, |b.listed|, cache, k);
    assert Trim(b.listed[i]) in Wanted(b.listed);
  }

  lemma {:induction false} StaysCached(b: Build, m: nat, n: nat, cache: Cache, k: string)
    requires m <= n <= |b.listed|
    requires k in CacheAt(b, m, cache) && CacheAt(b, m, cache)[k].sig == Sig(b.rows, k)
    ensures k in CacheAt(b, n, cache) && CacheAt(b, n, cache)[k] == CacheAt(b, m, cache)[k]
  {
    if m < n {
      StaysCached(b, m, n - 1, cache, k);
    }
  }

  /** The signature of a key is the last row with it, usable or not. */
  lemma {:induction false} SigIsLast(rows: seq<Row>, k: string) returns (i: int)
    ensures i < 0 ==> Sig(rows, k).None? && forall j :: 0 <= j < |rows| ==> Trim(rows[j].key) != k
    ensures i >= 0 ==>
              && i < |rows| && Sig(rows, k) == Some(rows[i]) && Trim(rows[i].key) == k
              && forall j :: i < j < |rows| ==> Trim(rows[j].key) != k
  {
    if rows == [] {
      return -1;
    }
    var n := |rows| - 1;
    if RowKey(rows[n]) == k {
      return n;
    }
    i := SigIsLast(rows[..n], k);
  }

  /** A listed key fails exactly if it is registered and named by a row, is not cached under it, and its factory
      returns nothing. */
  lemma {:induction false} FailsMeaning(b: Build, cache: Cache, i: nat)
    requires i < |b.listed|
    ensures var k, now := Trim(b.listed[i]), CacheAt(b, i, cache);
            FailsAt(b, i, cache) <==>
              && k != "" && k in b.reg && Sig(b.rows, k).Some?
              && !(k in now && now[k].sig == Sig(b.rows, k)) && b.calls(i, b.reg[k]) == []
  {
  }
}
