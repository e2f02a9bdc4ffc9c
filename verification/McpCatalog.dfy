/** The tool registry and the table of remote MCP servers that is registered into it
    (internal/tools/registry.go, internal/tools/mcp_servers.go). */
module McpCatalog {
  import opened Strings

  // ----- Table rows -----

  datatype Row = Row(key: string, url: string, auth: string, header: string, scheme: string, tokenEnv: string,
                     clientIdEnv: string, clientSecretEnv: string, metadataUrl: string, description: string)

  /** All that a remote factory reads of its row, by mode of authentication.  The name is the trimmed key; a
      header name counts without its case (section 5.1 of RFC 9110). */
  datatype Server =
    | Plain(name: string, url: string)
    | Static(name: string, url: string, tokenEnv: string, header: string, scheme: string)
    | OAuth(name: string, url: string, clientIdEnv: string, clientSecretEnv: string, metadataUrl: string)

  /** What a registry key runs: a built-in factory, or the factory made from a table row. */
  datatype Factory = Builtin(name: string) | Remote(server: Server)

  function RowKey(r: Row): string {
    Trim(r.key)
  }

  predicate Nameable(r: Row) {
    RowKey(r) != "" && Trim(r.url) != ""
  }

  const AUTHORIZATION := "authorization"

  function HeaderOf(r: Row): string {
    if Trim(r.header) == "" then AUTHORIZATION else ToLower(Trim(r.header))
  }

  /** The default depends on the mode, and applies only if the column is empty, not if it is blank. */
  function SchemeOf(r: Row): string {
    if r.scheme != "" then Trim(r.scheme)
    else if ToLower(Trim(r.auth)) !in {"apikey", "api_key", "api-key"} then "Bearer"
    else if HeaderOf(r) == AUTHORIZATION then "ApiKey"
    else ""
  }

  /** The factory of a row, None for an error. */
  function FactoryOf(r: Row): Option<Factory> {
    var auth, name, url := ToLower(Trim(r.auth)), RowKey(r), Trim(r.url);
    if auth in {"", "none"} then Some(Remote(Plain(name, url)))
    else if auth in {"bearer", "static", "apikey", "api_key", "api-key"} then
      if Trim(r.tokenEnv) == "" then None
      else Some(Remote(Static(name, url, Trim(r.tokenEnv), HeaderOf(r), SchemeOf(r))))
    else if auth in {"oauth2", "oauth"} then
      if Trim(r.clientIdEnv) == "" then None
      else Some(Remote(OAuth(name, url, Trim(r.clientIdEnv), Trim(r.clientSecretEnv), Trim(r.metadataUrl))))
    else None
  }

  // ----- Registering a table -----

  datatype Catalog = Catalog(registry: map<string, Factory>, registered: set<string>, descriptions: map<string, string>)

  function Add(c: Catalog, r: Row): Catalog
    requires FactoryOf(r).Some?
  {
    var key, text := RowKey(r), Trim(r.description);
    c.(registry := c.registry[key := FactoryOf(r).value],
       descriptions := if text == "" then c.descriptions else c.descriptions[key := text])
  }

  /** The row is taken: it does not collide with a key that no earlier table registered. */
  predicate Taken(c: Catalog, r: Row) {
    Nameable(r) && !(RowKey(r) in c.registry && RowKey(r) !in c.registered) && FactoryOf(r).Some?
  }

  datatype Pass = Pass(catalog: Catalog, next: set<string>)

  function AddRows(p: Pass, rows: seq<Row>): Pass
    decreases |rows|
  {
    if rows == [] then p
    else if Taken(p.catalog, rows[0]) then AddRows(Pass(Add(p.catalog, rows[0]), p.next + {RowKey(rows[0])}), rows[1..])
    else AddRows(p, rows[1..])
  }

  function DropGone(c: Catalog, gone: set<string>, next: set<string>): Catalog {
    Catalog(c.registry - gone, next, c.descriptions - gone)
  }

  function RegisterTable(c: Catalog, rows: seq<Row>): Catalog {
    var p := AddRows(Pass(c, {}), rows);
    DropGone(p.catalog, c.registered - p.next, p.next)
  }

  class Registry {
    var registry: map<string, Factory>
    var descriptions: map<string, string>
    var mcpRegistered: set<string>

    constructor (builtins: map<string, Factory>, texts: map<string, string>)
      ensures Value() == Catalog(builtins, {}, texts)
    {
      registry, descriptions, mcpRegistered := builtins, texts, {};
    }

    ghost function Value(): Catalog
      reads this
    {
      Catalog(registry, mcpRegistered, descriptions)
    }

    method Register(key: string, factory: Factory, description: string)
      modifies this`registry, this`descriptions
      ensures registry == if key == "" then old(registry) else old(registry)[key := factory]
      ensures descriptions == if key == "" || description == "" then old(descriptions)
                              else old(descriptions)[key := description]
    {
      if key == "" {
        return;
      }
      registry := registry[key := factory];
      if description != "" {
        descriptions := descriptions[key := description];
      }
    }

    method Unregister(key: string)
      modifies this`registry, this`descriptions
      ensures registry == old(registry) - {key} && descriptions == old(descriptions) - {key}
    {
      registry := registry - {key};
      descriptions := descriptions - {key};
    }

    method RegisterMCPServers(servers: seq<Row>)
      modifies this
      ensures Value() == RegisterTable(old(Value()), servers)
    {
      var next: set<string> := {};
      for i := 0 to |servers|
        invariant mcpRegistered == old(mcpRegistered)
        invariant AddRows(Pass(Value(), next), servers[i..]) == AddRows(Pass(old(Value()), {}), servers)
      {
        var srv := servers[i];
        assert servers[i..][0] == srv && servers[i..][1..] == servers[i + 1..];
        var key := Trim(srv.key);
        if key == "" || Trim(srv.url) == "" {
          continue;
        }
        if key in registry && key !in mcpRegistered {
          continue;
        }
        var factory := FactoryOf(srv);
        if factory.None? {
          continue;
        }
        Register(key, factory.value, Trim(srv.description));
        next := next + {key};
      }
      UnregisterGone(next);
      mcpRegistered := next;
    }

    /** The loop over the previously registered keys, in any order. */
    method UnregisterGone(next: set<string>)
      modifies this`registry, this`descriptions
      ensures registry == old(registry) - (mcpRegistered - next)
      ensures descriptions == old(descriptions) - (mcpRegistered - next)
    {
      var todo := mcpRegistered;
      while todo != {}
        invariant todo <= mcpRegistered
        invariant registry == old(registry) - (mcpRegistered - next - todo)
        invariant descriptions == old(descriptions) - (mcpRegistered - next - todo)
        decreases todo
      {
        var key :| key in todo;
        if key !in next {
          Unregister(key);
        }
        todo := todo - {key};
      }
    }
  }

  // ----- What is registered -----

  type Builtins = map<string, Factory>

  /** Between two calls the registry holds the built-ins and the registered remote keys, nothing else. */
  ghost predicate Inv(b: Builtins, c: Catalog) {
    && b.Keys !! c.registered
    && c.registry.Keys == b.Keys + c.registered
    && forall k :: k in b ==> c.registry[k] == b[k]
  }

  predicate Usable(b: Builtins, r: Row) {
    Nameable(r) && FactoryOf(r).Some? && RowKey(r) !in b
  }

  function FirstUsable(b: Builtins, rows: seq<Row>, k: string): (r: Option<Row>)
    ensures r.Some? ==> Usable(b, r.value) && RowKey(r.value) == k && r.value in rows
  {
    if rows == [] then None
    else if Usable(b, rows[0]) && RowKey(rows[0]) == k then Some(rows[0])
    else FirstUsable(b, rows[1..], k)
  }

  function LastUsable(b: Builtins, rows: seq<Row>, k: string): (r: Option<Row>)
    ensures r.Some? ==> Usable(b, r.value) && RowKey(r.value) == k && r.value in rows
  {
    if rows == [] then None
    else
      var later := LastUsable(b, rows[1..], k);
      if later.None? && Usable(b, rows[0]) && RowKey(rows[0]) == k then Some(rows[0]) else later
  }

  /** The factory made from the row. */
  function Made(row: Option<Row>): Option<Factory> {
    if row.None? then None else FactoryOf(row.value)
  }

  lemma {:induction false} FirstOrLast(b: Builtins, rows: seq<Row>, k: string)
    ensures FirstUsable(b, rows, k).Some? <==> LastUsable(b, rows, k).Some?
  {
    if rows != [] {
      FirstOrLast(b, rows[1..], k);
    }
  }

  /** While the table is worked through, remote keys are those of the last table and those taken so far. */
  ghost predicate Mid(b: Builtins, p: Pass) {
    && b.Keys !! p.catalog.registered + p.next
    && p.catalog.registry.Keys == b.Keys + p.catalog.registered + p.next
    && forall k :: k in b ==> p.catalog.registry[k] == b[k]
  }

  function Lookup<T>(m: map<string, T>, k: string): Option<T> {
    if k in m then Some(m[k]) else None
  }

  /** What working through the rows makes of the key k. */
  ghost predicate RowsAt(b: Builtins, p: Pass, rows: seq<Row>, q: Pass, k: string) {
    var first, last := FirstUsable(b, rows, k), LastUsable(b, rows, k);
    && q.catalog.registered == p.catalog.registered
    && (k in q.next <==> k in p.next || first.Some?)
    && (k in p.catalog.registered && last.Some? ==> Made(last) == Lookup(q.catalog.registry, k))
    && (k in p.catalog.registry && (k !in p.catalog.registered || last.None?) ==>
          Lookup(q.catalog.registry, k) == Lookup(p.catalog.registry, k))
    && (k !in p.catalog.registry && first.Some? ==> Made(first) == Lookup(q.catalog.registry, k))
  }

  lemma {:induction false} AddRowsAt(b: Builtins, p: Pass, rows: seq<Row>, k: string)
    requires Mid(b, p)
    ensures Mid(b, AddRows(p, rows))
    ensures RowsAt(b, p, rows, AddRows(p, rows), k)
    decreases |rows|
  {
    if rows != [] {
      var r := rows[0];
      FirstOrLast(b, rows[1..], k);
      if Taken(p.catalog, r) {
        var step := Pass(Add(p.catalog, r), p.next + {RowKey(r)});
        assert RowKey(r) !in b;
        AddRowsAt(b, step, rows[1..], k);
      } else {
        AddRowsAt(b, p, rows[1..], k);
      }
    }
  }

  /** Whatever the table, built-ins stay untouched and the remote keys become exactly the usable ones.  A
      key that the previous table had gets its last usable row, a new key its first. */
  lemma {:induction false} TableAt(b: Builtins, c: Catalog, rows: seq<Row>, k: string)
    requires Inv(b, c)
    ensures Inv(b, RegisterTable(c, rows))
    ensures var d := RegisterTable(c, rows);
            var row := if k in c.registered then LastUsable(b, rows, k) else FirstUsable(b, rows, k);
            (k in d.registered <==> row.Some?) && (row.Some? ==> Some(d.registry[k]) == Made(row))
  {
    var p := Pass(c, {});
    AddRowsAt(b, p, rows, k);
    FirstOrLast(b, rows, k);
    var q := AddRows(p, rows);
    assert q.catalog.registered == c.registered;
    RegisteredOf(b, c, rows);
  }

  lemma {:induction false} RegisteredOf(b: Builtins, c: Catalog, rows: seq<Row>)
    requires Inv(b, c)
    ensures Inv(b, RegisterTable(c, rows))
  {
    var q := AddRows(Pass(c, {}), rows);
    AddRowsAt(b, Pass(c, {}), rows, "");
    var d := RegisterTable(c, rows);
    assert d.registry.Keys == b.Keys + q.next;
  }

  // ----- Independence of history -----

  predicate MirroredAt(b: Builtins, c: Catalog, rows: seq<Row>, k: string) {
    Lookup(c.registry, k) == if k in b then Some(b[k]) else Made(FirstUsable(b, rows, k))
  }

  /** Built-ins plus the factories of the usable rows. */
  ghost predicate Mirrors(b: Builtins, c: Catalog, rows: seq<Row>) {
    forall k :: MirroredAt(b, c, rows, k)
  }

  /** The first and the last usable row of each key make the same factory; they may differ in what the factory
      does not read, as the description. */
  ghost predicate OneFactoryPerKey(b: Builtins, rows: seq<Row>) {
    forall k :: Made(FirstUsable(b, rows, k)) == Made(LastUsable(b, rows, k))
  }

  lemma {:induction false} TableMirrorsAt(b: Builtins, c: Catalog, rows: seq<Row>, k: string)
    requires Inv(b, c) && Made(FirstUsable(b, rows, k)) == Made(LastUsable(b, rows, k))
    ensures MirroredAt(b, RegisterTable(c, rows), rows, k)
  {
    RegisteredOf(b, c, rows);
    TableAt(b, c, rows, k);
  }

  lemma {:induction false} TableMirrors(b: Builtins, c: Catalog, rows: seq<Row>)
    requires Inv(b, c) && OneFactoryPerKey(b, rows)
    ensures Mirrors(b, RegisterTable(c, rows), rows)
  {
    forall k ensures MirroredAt(b, RegisterTable(c, rows), rows, k) {
      TableMirrorsAt(b, c, rows, k);
    }
  }

  ghost predicate AlwaysMirrors(b: Builtins, rows: seq<Row>) {
    forall c :: Inv(b, c) ==> Mirrors(b, RegisterTable(c, rows), rows)
  }

  /** A history for which a key with two rows is registered from the last one. */
  lemma {:induction false} HistoryShows(b: Builtins, rows: seq<Row>, k: string) returns (c: Catalog)
    requires Made(FirstUsable(b, rows, k)) != Made(LastUsable(b, rows, k))
    ensures Inv(b, c) && !Mirrors(b, RegisterTable(c, rows), rows)
  {
    FirstOrLast(b, rows, k);
    var last := LastUsable(b, rows, k).value;
    c := Catalog(b[k := FactoryOf(last).value], {k}, map[]);
    assert k !in b;
    assert Inv(b, c);
    TableAt(b, c, rows, k);
    assert !MirroredAt(b, RegisterTable(c, rows), rows, k);
  }

  /** The registry mirrors the table whatever was registered before exactly if for no key the first usable
      row and the last make different factories. */
  lemma {:induction false} MirrorsWhateverBefore(b: Builtins, rows: seq<Row>)
    ensures AlwaysMirrors(b, rows) <==> OneFactoryPerKey(b, rows)
  {
    if OneFactoryPerKey(b, rows) {
      forall c | Inv(b, c) ensures Mirrors(b, RegisterTable(c, rows), rows) {
        TableMirrors(b, c, rows);
      }
    } else {
      var k :| Made(FirstUsable(b, rows, k)) != Made(LastUsable(b, rows, k));
      var c := HistoryShows(b, rows, k);
    }
  }

  predicate DistinctRows(rows: seq<Row>) {
    forall i, j :: 0 <= i < j < |rows| ==> RowKey(rows[i]) != RowKey(rows[j])
  }

  lemma {:induction false} NoRowNamed(b: Builtins, rows: seq<Row>, k: string)
    requires forall i :: 0 <= i < |rows| ==> RowKey(rows[i]) != k
    ensures FirstUsable(b, rows, k) == None && LastUsable(b, rows, k) == None
  {
    if rows != [] {
      NoRowNamed(b, rows[1..], k);
    }
  }

  lemma {:induction false} SameEnds(b: Builtins, rows: seq<Row>, k: string)
    requires DistinctRows(rows)
    ensures FirstUsable(b, rows, k) == LastUsable(b, rows, k)
  {
    if rows != [] {
      SameEnds(b, rows[1..], k);
      if RowKey(rows[0]) == k {
        NoRowNamed(b, rows[1..], k);
      }
    }
  }

  lemma {:induction false} DistinctRowsSuffice(b: Builtins, rows: seq<Row>)
    requires DistinctRows(rows)
    ensures OneFactoryPerKey(b, rows)
  {
    forall k ensures Made(FirstUsable(b, rows, k)) == Made(LastUsable(b, rows, k)) {
      SameEnds(b, rows, k);
    }
  }

  lemma {:induction false} TrimLeftBang(s: string)
    ensures TrimLeft(s + "!") == TrimLeft(s) + "!"
  {
    if s == "" {
      var t := s + "!";
      assert t[0] == '!' && !IsSpace(t[0]);
    } else if IsSpace(s[0]) {
      assert (s + "!")[1..] == s[1..] + "!";
      TrimLeftBang(s[1..]);
    }
  }

  /** Editing the address of a usable row gives a usable row with another factory. */
  lemma {:induction false} EditedUrl(b: Builtins, r: Row)
    requires Usable(b, r)
    ensures var e := r.(url := r.url + "!"); Usable(b, e) && RowKey(e) == RowKey(r) && FactoryOf(e) != FactoryOf(r)
  {
    var e := r.(url := r.url + "!");
    var front := TrimLeft(r.url);
    TrimLeftBang(r.url);
    assert (front + "!")[|front|] == '!' && !IsSpace('!');
    assert TrimRight(front + "!") == front + "!";
    TrimRightIsPrefix(front);
    assert |Trim(e.url)| > |Trim(r.url)|;
  }

  // ----- Descriptions -----

  /** The description a row supplies. */
  function TextOf(row: Option<Row>): Option<string> {
    if row.None? || Trim(row.value.description) == "" then None else Some(Trim(row.value.description))
  }

  /** The last text that a usable row with the key supplies. */
  function LastText(b: Builtins, rows: seq<Row>, k: string): Option<string> {
    if rows == [] then None
    else
      var later := LastText(b, rows[1..], k);
      if later.None? && Usable(b, rows[0]) && RowKey(rows[0]) == k then TextOf(Some(rows[0])) else later
  }

  function OrElse(a: Option<string>, b: Option<string>): Option<string> {
    if a.Some? then a else b
  }

  /** What working through the rows makes of a key's description: all usable rows of a key of the previous
      table count, of another key the first one. */
  lemma {:induction false} DescriptionsAt(b: Builtins, p: Pass, rows: seq<Row>, k: string)
    requires Mid(b, p)
    ensures Lookup(AddRows(p, rows).catalog.descriptions, k)
         == var text := if k in p.catalog.registered then LastText(b, rows, k)
                        else if k in p.catalog.registry then None
                        else TextOf(FirstUsable(b, rows, k));
            OrElse(text, Lookup(p.catalog.descriptions, k))
    decreases |rows|
  {
    if rows != [] {
      var r := rows[0];
      if Taken(p.catalog, r) {
        var step := Pass(Add(p.catalog, r), p.next + {RowKey(r)});
        assert RowKey(r) !in b;
        DescriptionsAt(b, step, rows[1..], k);
      } else {
        DescriptionsAt(b, p, rows[1..], k);
      }
    }
  }

  /** The row a key is registered from. */
  function RegisteredRow(b: Builtins, c: Catalog, rows: seq<Row>, k: string): Option<Row> {
    if k in c.registered then LastUsable(b, rows, k) else FirstUsable(b, rows, k)
  }

  lemma {:induction false} LastTextOfLast(b: Builtins, rows: seq<Row>, k: string)
    ensures TextOf(LastUsable(b, rows, k)).Some? ==> LastText(b, rows, k) == TextOf(LastUsable(b, rows, k))
    ensures LastUsable(b, rows, k).None? ==> LastText(b, rows, k).None?
  {
    if rows != [] {
      LastTextOfLast(b, rows[1..], k);
    }
  }

  /** Descriptions do not quite mirror the table: a key registered from a row without a description keeps the
      text that an earlier table, or an earlier row of this one, left; this is the only way the two differ. */
  lemma {:induction false} DescriptionMirrors(b: Builtins, c: Catalog, rows: seq<Row>, k: string)
    requires Inv(b, c) && FirstUsable(b, rows, k).Some?
    ensures Lookup(RegisterTable(c, rows).descriptions, k) == TextOf(RegisteredRow(b, c, rows, k))
       <==> || TextOf(RegisteredRow(b, c, rows, k)).Some?
            || (k !in c.descriptions && (k in c.registered ==> LastText(b, rows, k).None?))
  {
    var p := Pass(c, {});
    DescriptionsAt(b, p, rows, k);
    AddRowsAt(b, p, rows, k);
    LastTextOfLast(b, rows, k);
    assert k in AddRows(p, rows).next;
  }

  // ----- What a factory reads of its row -----

  datatype Mode = NoAuth | StaticAuth | OAuthAuth | Unknown

  /** The modes, in any case and with any space around them. */
  function ModeOf(r: Row): Mode {
    var auth := ToLower(Trim(r.auth));
    if auth == "" || auth == "none" then NoAuth
    else if auth == "bearer" || auth == "static" || auth == "apikey" || auth == "api_key" || auth == "api-key"
    then StaticAuth
    else if auth == "oauth2" || auth == "oauth" then OAuthAuth
    else Unknown
  }

  /** A row makes no factory exactly if its mode is unknown, or the environment variable its mode needs is not
      named. */
  lemma {:induction false} FactoryErrors(r: Row)
    ensures FactoryOf(r).None? <==>
              || ModeOf(r) == Unknown
              || (ModeOf(r) == StaticAuth && IsBlank(r.tokenEnv))
              || (ModeOf(r) == OAuthAuth && IsBlank(r.clientIdEnv))
  {
    BlankIsTrimmedAway(r.tokenEnv);
    BlankIsTrimmedAway(r.clientIdEnv);
  }

  lemma {:induction false} BlankIsTrimmedAway(s: string)
    ensures Trim(s) == "" <==> IsBlank(s)
  {
    var a, b := TrimSplits(s);
    if Trim(s) == "" {
      assert s == a + b;
      BlankAppend(a, b);
    } else {
      assert s[|a|] == Trim(s)[0];
    }
  }

  predicate SameTrimmed(a: string, b: string) {
    Trim(a) == Trim(b)
  }

  /** Two rows make the same factory exactly if they have the same mode, key and address, and the same columns that
      the mode reads; never the description. */
  lemma {:induction false} FactoriesCompare(r: Row, q: Row)
    requires FactoryOf(r).Some? && FactoryOf(q).Some?
    ensures FactoryOf(r) == FactoryOf(q) <==>
              && ModeOf(r) == ModeOf(q) && SameTrimmed(r.key, q.key) && SameTrimmed(r.url, q.url)
              && (ModeOf(r) == StaticAuth ==>
                    SameTrimmed(r.tokenEnv, q.tokenEnv) && HeaderOf(r) == HeaderOf(q) && SchemeOf(r) == SchemeOf(q))
              && (ModeOf(r) == OAuthAuth ==>
                    && SameTrimmed(r.clientIdEnv, q.clientIdEnv) && SameTrimmed(r.clientSecretEnv, q.clientSecretEnv)
                    && SameTrimmed(r.metadataUrl, q.metadataUrl))
  {
  }

  /** The documented defaults of a static header: Authorization with Bearer, for the API key modes with ApiKey, and
      there no scheme with a header of one's own; what the table gives overrides them. */
  lemma {:induction false} StaticDefaults(r: Row)
    ensures IsBlank(r.header) ==> HeaderOf(r) == "authorization"
    ensures !IsBlank(r.header) ==> HeaderOf(r) == ToLower(Trim(r.header))
    ensures r.scheme != "" ==> SchemeOf(r) == Trim(r.scheme)
    ensures r.scheme == "" && ToLower(Trim(r.auth)) in {"bearer", "static"} ==> SchemeOf(r) == "Bearer"
    ensures r.scheme == "" && ToLower(Trim(r.auth)) in {"apikey", "api_key", "api-key"} ==>
              SchemeOf(r) == if HeaderOf(r) == "authorization" then "ApiKey" else ""
  {
    BlankIsTrimmedAway(r.header);
  }

  /** A row is usable exactly if key and address are not blank, it makes a factory, and its key is no built-in's. */
  lemma {:induction false} UsableMeaning(b: Builtins, r: Row)
    ensures Usable(b, r) <==>
              !IsBlank(r.key) && !IsBlank(r.url) && FactoryOf(r).Some? && Trim(r.key) !in b
  {
    BlankIsTrimmedAway(r.key);
    BlankIsTrimmedAway(r.url);
  }
}
