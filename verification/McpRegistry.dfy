/** The shared tool registry under MCP server owner tasks that connect, reload and
    shut down independently. */
module McpRegistry {
  import opened SafeWrite

  datatype Entry = Native(id: int) | Mcp(server: string, tool: string)

  /** The allow list (empty: no restriction without a policy) and the strict local policy, if any. */
  datatype Config = Config(allow: set<string>, policy: Option<set<string>>)

  function RegName(server: string, tool: string): string {
    "mcp__" + server + "__" + tool
  }

  predicate Offered(cfg: Config, tool: string) {
    match cfg.policy
    case Some(confirmed) => tool in cfg.allow && tool in confirmed
    case None => cfg.allow == {} || tool in cfg.allow
  }

  /** The registration loop: the registry and the names this server now owns. */
  function Register(registry: map<string, Entry>, server: string, cfg: Config, tools: seq<string>): (map<string, Entry>, seq<string>)
    decreases |tools|
  {
    if tools == [] then (registry, [])
    else
      var n := |tools| - 1;
      var (front, names) := Register(registry, server, cfg, tools[..n]);
      var name := RegName(server, tools[n]);
      if Offered(cfg, tools[n]) && name !in front then (front[name := Mcp(server, tools[n])], names + [name]) else (front, names)
  }

  function Without(registry: map<string, Entry>, names: seq<string>): map<string, Entry> {
    map n | n in registry && n !in names :: registry[n]
  }

  // ---- Owner tasks -------------------------------------------------------

  /** An owner task is awaiting its connection, or waiting for a command. */
  datatype Phase = Connecting | Idle

  datatype State = State(registry: map<string, Entry>, servers: map<string, seq<string>>, owners: map<string, Phase>, calling: set<string>)

  datatype Op =
    | Spawn(name: string, connects: bool)
    | Connected(name: string, cfg: Config, tools: seq<string>)
    | ConnectFailed(name: string)
    | Reload(name: string, connects: bool)
    | Shutdown(name: string)
    // The reconnect inside a tool call runs in the caller's task.
    | CallCloses(name: string)
    | CallConnects(name: string, cfg: Config, tools: seq<string>)

  function Close(s: State, name: string): State {
    if name in s.servers
    then s.(registry := Without(s.registry, s.servers[name]), servers := s.servers - {name})
    else s
  }

  function Connect(s: State, name: string, cfg: Config, tools: seq<string>): State {
    var (registry, names) := Register(s.registry, name, cfg, tools);
    s.(registry := registry, servers := s.servers[name := names])
  }

  /** One step; a step that is not enabled changes nothing. */
  function Step(s: State, op: Op): State {
    match op
    case Spawn(name, connects) =>
      if name in s.owners then s else s.(owners := s.owners[name := if connects then Connecting else Idle])
    case Connected(name, cfg, tools) =>
      if name in s.owners && s.owners[name].Connecting?
      then Connect(s, name, cfg, tools).(owners := s.owners[name := Idle]) else s
    case ConnectFailed(name) =>
      if name in s.owners && s.owners[name].Connecting? then s.(owners := s.owners[name := Idle]) else s
    case Reload(name, connects) =>
      if name in s.owners && s.owners[name].Idle?
      then Close(s, name).(owners := s.owners[name := if connects then Connecting else Idle]) else s
    case Shutdown(name) =>
      if name in s.owners && s.owners[name].Idle? then Close(s, name).(owners := s.owners - {name}) else s
    case CallCloses(name) =>
      if name in s.servers then Close(s, name).(calling := s.calling + {name}) else s
    case CallConnects(name, cfg, tools) =>
      if name in s.calling then Connect(s, name, cfg, tools).(calling := s.calling - {name}) else s
  }

  function Run(s: State, ops: seq<Op>): State
    decreases |ops|
  {
    if ops == [] then s else Step(Run(s, ops[..|ops| - 1]), ops[|ops| - 1])
  }

  function Start(base: map<string, Entry>): State {
    State(base, map[], map[], {})
  }

  // ---- The invariant -----------------------------------------------------

  predicate NoRepeats(names: seq<string>) {
    forall i, j :: 0 <= i < j < |names| ==> names[i] != names[j]
  }

  /** The names a server owns are distinct, registered as its own, and new. */
  ghost predicate Owns(registry: map<string, Entry>, base: map<string, Entry>, server: string, names: seq<string>) {
    && NoRepeats(names)
    && forall n :: n in names ==> n in registry && n !in base && registry[n].Mcp? && registry[n].server == server
  }

  ghost predicate OwnedBy(servers: map<string, seq<string>>, server: string, n: string) {
    server in servers && n in servers[server]
  }

  /** The registry is the entries that were there before, untouched, and the disjoint
      union of what the connected servers own. */
  ghost predicate Exact(registry: map<string, Entry>, servers: map<string, seq<string>>, base: map<string, Entry>) {
    && (forall n :: n in base ==> n in registry && registry[n] == base[n])
    && (forall server :: server in servers ==> Owns(registry, base, server, servers[server]))
    && (forall n :: n in registry && n !in base ==> exists server :: OwnedBy(servers, server, n))
  }

  /** What a registration loop adds to a registry. */
  ghost predicate Adds(before: map<string, Entry>, after: map<string, Entry>, server: string, names: seq<string>) {
    && NoRepeats(names)
    && (forall n :: n in before ==> n in after && after[n] == before[n])
    && (forall n :: n in names ==> n in after && n !in before && after[n].Mcp? && after[n].server == server)
    && (forall n :: n in after && n !in before ==> n in names)
  }

  lemma {:induction false} RegisterAdds(registry: map<string, Entry>, server: string, cfg: Config, tools: seq<string>)
    ensures var (after, names) := Register(registry, server, cfg, tools); Adds(registry, after, server, names)
    decreases |tools|
  {
    if tools != [] { RegisterAdds(registry, server, cfg, tools[..|tools| - 1]); }
  }

  /** A connection may take the place of this server's handle: there is none, or it
      owns nothing. */
  predicate MayConnect(s: State, name: string) {
    name !in s.servers || s.servers[name] == []
  }

  lemma ConnectExact(s: State, base: map<string, Entry>, name: string, cfg: Config, tools: seq<string>)
    requires Exact(s.registry, s.servers, base) && MayConnect(s, name)
    ensures var t := Connect(s, name, cfg, tools); Exact(t.registry, t.servers, base)
  {
    RegisterAdds(s.registry, name, cfg, tools);
    var t := Connect(s, name, cfg, tools);
    forall server | server in t.servers ensures Owns(t.registry, base, server, t.servers[server]) {
      if server != name { assert Owns(s.registry, base, server, s.servers[server]); }
    }
    forall n | n in t.registry && n !in base ensures exists server :: OwnedBy(t.servers, server, n) {
      if n in s.registry {
        var server :| OwnedBy(s.servers, server, n);
        assert OwnedBy(t.servers, server, n);
      } else {
        assert OwnedBy(t.servers, name, n);
      }
    }
  }

  /** A connection keeps the registry exact if and only if it replaces no handle that
      owns names: those would have no owner left. */
  lemma ConnectKeepsExactIff(s: State, base: map<string, Entry>, name: string, cfg: Config, tools: seq<string>)
    requires Exact(s.registry, s.servers, base)
    ensures var t := Connect(s, name, cfg, tools); Exact(t.registry, t.servers, base) <==> MayConnect(s, name)
  {
    var t := Connect(s, name, cfg, tools);
    if MayConnect(s, name) {
      ConnectExact(s, base, name, cfg, tools);
    } else {
      var n := s.servers[name][0];
      RegisterAdds(s.registry, name, cfg, tools);
      assert Owns(s.registry, base, name, s.servers[name]) && OwnedBy(s.servers, name, n);
      forall server ensures !OwnedBy(t.servers, server, n) {
        if server != name && server in s.servers { assert Owns(s.registry, base, server, s.servers[server]); }
      }
    }
  }

  lemma CloseExact(s: State, base: map<string, Entry>, name: string)
    requires Exact(s.registry, s.servers, base)
    ensures var t := Close(s, name); Exact(t.registry, t.servers, base) && name !in t.servers
  {
    if name in s.servers {
      var t := Close(s, name);
      assert Owns(s.registry, base, name, s.servers[name]);
      forall server | server in t.servers ensures Owns(t.registry, base, server, t.servers[server]) {
        assert Owns(s.registry, base, server, s.servers[server]);
      }
      forall n | n in t.registry && n !in base ensures exists server :: OwnedBy(t.servers, server, n) {
        var server :| OwnedBy(s.servers, server, n);
        assert OwnedBy(t.servers, server, n);
      }
    }
  }

  /** The step is a connection that takes place. */
  predicate Connects(s: State, op: Op) {
    || (op.Connected? && op.name in s.owners && s.owners[op.name].Connecting?)
    || (op.CallConnects? && op.name in s.calling)
  }

  predicate Guarded(s: State, op: Op) {
    Connects(s, op) ==> MayConnect(s, op.name)
  }

  /** Every connection of the run found no handle in its way that owns names. */
  predicate AllGuarded(base: map<string, Entry>, ops: seq<Op>)
    decreases |ops|
  {
    ops != [] ==> AllGuarded(base, ops[..|ops| - 1]) && Guarded(Run(Start(base), ops[..|ops| - 1]), ops[|ops| - 1])
  }

  ghost predicate IsExact(s: State, base: map<string, Entry>) {
    Exact(s.registry, s.servers, base)
  }

  /** The registry was exact all along the run. */
  ghost predicate AlwaysExact(base: map<string, Entry>, ops: seq<Op>)
    decreases |ops|
  {
    IsExact(Run(Start(base), ops), base) && (ops != [] ==> AlwaysExact(base, ops[..|ops| - 1]))
  }

  lemma StepExactIff(s: State, base: map<string, Entry>, op: Op)
    requires IsExact(s, base)
    ensures IsExact(Step(s, op), base) <==> Guarded(s, op)
  {
    match op
    case Connected(name, cfg, tools) => ConnectKeepsExactIff(s, base, name, cfg, tools);
    case CallConnects(name, cfg, tools) => ConnectKeepsExactIff(s, base, name, cfg, tools);
    case Reload(name, _) => CloseExact(s, base, name);
    case Shutdown(name) => CloseExact(s, base, name);
    case CallCloses(name) => CloseExact(s, base, name);
    case _ =>
  }

  // ---- Main results ------------------------------------------------------

  /** In every run of owner tasks and reconnecting calls, in any interleaving: the
      registry is all along exactly the entries it began with plus the disjoint union
      of the connected servers' tool names, if and only if no connection replaced a
      handle that owned names. */
  lemma {:induction false} AlwaysExactIff(base: map<string, Entry>, ops: seq<Op>)
    ensures AlwaysExact(base, ops) <==> AllGuarded(base, ops)
    decreases |ops|
  {
    if ops != [] {
      var front := ops[..|ops| - 1];
      AlwaysExactIff(base, front);
      if AlwaysExact(base, front) {
        ExactNow(base, front);
        StepExactIff(Run(Start(base), front), base, ops[|ops| - 1]);
      }
    }
  }

  lemma ExactNow(base: map<string, Entry>, ops: seq<Op>)
    requires AlwaysExact(base, ops)
    ensures IsExact(Run(Start(base), ops), base)
  {
  }

  /** Connected servers have an idle owner, and no call is between its two steps. */
  ghost predicate Owned(s: State) {
    (forall name :: name in s.servers ==> name in s.owners && s.owners[name].Idle?) && s.calling == {}
  }

  predicate ByOwner(op: Op) {
    !op.CallCloses?
  }

  lemma {:induction false} OwnerRunIsOwned(base: map<string, Entry>, ops: seq<Op>)
    requires forall i :: 0 <= i < |ops| ==> ByOwner(ops[i])
    ensures Owned(Run(Start(base), ops)) && AllGuarded(base, ops)
    decreases |ops|
  {
    if ops != [] { OwnerRunIsOwned(base, ops[..|ops| - 1]); }
  }

  /** Over any run of owner tasks -- connecting, failing, reloading and shutting down in
      any interleaving -- that guard is always met. */
  lemma RunInv(base: map<string, Entry>, ops: seq<Op>)
    requires forall i :: 0 <= i < |ops| ==> ByOwner(ops[i])
    ensures AlwaysExact(base, ops) && IsExact(Run(Start(base), ops), base)
  {
    OwnerRunIsOwned(base, ops);
    AlwaysExactIff(base, ops);
    ExactNow(base, ops);
  }

  /** The reconnect of a call is harmless where it runs undisturbed: closing and
      connecting again, with only other servers' steps between. */
  lemma UndisturbedReconnect(base: map<string, Entry>, ops: seq<Op>, name: string, between: seq<Op>, cfg: Config, tools: seq<string>)
    requires AllGuarded(base, ops + [CallCloses(name)] + between)
    requires forall i :: 0 <= i < |between| ==> between[i].name != name
    ensures AllGuarded(base, ops + [CallCloses(name)] + between + [CallConnects(name, cfg, tools)])
  {
    AbsentStays(ops, base, name, between);
    RunSnoc(Start(base), ops + [CallCloses(name)] + between, CallConnects(name, cfg, tools));
    var all := ops + [CallCloses(name)] + between + [CallConnects(name, cfg, tools)];
    assert all[..|all| - 1] == ops + [CallCloses(name)] + between;
  }

  lemma {:induction false} AbsentStays(ops: seq<Op>, base: map<string, Entry>, name: string, between: seq<Op>)
    requires forall i :: 0 <= i < |between| ==> between[i].name != name
    ensures name !in Run(Start(base), ops + [CallCloses(name)] + between).servers
    decreases |between|
  {
    var begun := ops + [CallCloses(name)];
    if between == [] {
      assert begun + between == begun;
      RunSnoc(Start(base), ops, CallCloses(name));
    } else {
      var front, op := between[..|between| - 1], between[|between| - 1];
      assert begun + between == (begun + front) + [op];
      AbsentStays(ops, base, name, front);
      RunSnoc(Start(base), begun + front, op);
    }
  }

  /** No two servers own one name, and nobody owns an entry that was there before. */
  lemma OwnersAreDisjoint(base: map<string, Entry>, ops: seq<Op>, n: string, a: string, b: string)
    requires AllGuarded(base, ops)
    requires OwnedBy(Run(Start(base), ops).servers, a, n)
    ensures n !in base && (OwnedBy(Run(Start(base), ops).servers, b, n) ==> a == b)
  {
    AlwaysExactIff(base, ops);
    ExactNow(base, ops);
    var s := Run(Start(base), ops);
    assert Owns(s.registry, base, a, s.servers[a]);
    if OwnedBy(s.servers, b, n) { assert Owns(s.registry, base, b, s.servers[b]); }
  }

  /** With no server connected the registry is back to what it was. */
  lemma NothingIsLeftBehind(base: map<string, Entry>, ops: seq<Op>)
    requires AllGuarded(base, ops)
    requires Run(Start(base), ops).servers == map[]
    ensures Run(Start(base), ops).registry == base
  {
    AlwaysExactIff(base, ops);
    ExactNow(base, ops);
    var s := Run(Start(base), ops);
    forall n | n in s.registry ensures n in base {
      assert forall server :: !OwnedBy(s.servers, server, n);
    }
  }

  /** Connecting makes every offered tool callable under its name, and its own unless
      the name was taken. */
  lemma {:induction false} OfferedIsRegistered(registry: map<string, Entry>, server: string, cfg: Config, tools: seq<string>, i: nat)
    requires i < |tools|
    ensures var (after, names) := Register(registry, server, cfg, tools); var n := RegName(server, tools[i]);
      && (Offered(cfg, tools[i]) ==> n in after && (n in names <==> n !in registry))
      && (forall m :: m in names ==> exists k :: 0 <= k < |tools| && Offered(cfg, tools[k]) && m == RegName(server, tools[k]))
    decreases |tools|
  {
    RegisteredWasOffered(registry, server, cfg, tools);
    RegisterAdds(registry, server, cfg, tools);
    var n := |tools| - 1;
    RegisterAdds(registry, server, cfg, tools[..n]);
    if i < n { OfferedIsRegistered(registry, server, cfg, tools[..n], i); }
  }

  lemma {:induction false} RegisteredWasOffered(registry: map<string, Entry>, server: string, cfg: Config, tools: seq<string>)
    ensures forall m :: m in Register(registry, server, cfg, tools).1 ==>
      exists k :: 0 <= k < |tools| && Offered(cfg, tools[k]) && m == RegName(server, tools[k])
    decreases |tools|
  {
    if tools != [] {
      var n := |tools| - 1;
      RegisteredWasOffered(registry, server, cfg, tools[..n]);
      forall m | m in Register(registry, server, cfg, tools).1
        ensures exists k :: 0 <= k < |tools| && Offered(cfg, tools[k]) && m == RegName(server, tools[k])
      {
        if m in Register(registry, server, cfg, tools[..n]).1 {
          var k :| 0 <= k < n && Offered(cfg, tools[..n][k]) && m == RegName(server, tools[..n][k]);
          assert tools[k] == tools[..n][k];
        } else {
          assert tools[n] == tools[n];
        }
      }
    }
  }

  /** What the configuration lets through: under a local policy only what is both allowed
      and confirmed there, without one what is allowed, or everything if no list is given. */
  ghost predicate LetThrough(cfg: Config, tool: string) {
    && (cfg.policy.Some? ==> tool in cfg.allow && tool in cfg.policy.value)
    && (cfg.policy.None? && cfg.allow != {} ==> tool in cfg.allow)
  }

  /** The name leads to this tool of the server, which the configuration lets through. */
  ghost predicate RegisteredFor(after: map<string, Entry>, server: string, cfg: Config, tool: string, m: string) {
    m == "mcp__" + server + "__" + tool && m in after && after[m] == Mcp(server, tool) && LetThrough(cfg, tool)
  }

  lemma {:induction false} RegisteredAs(registry: map<string, Entry>, server: string, cfg: Config, tools: seq<string>, m: string)
    ensures var (after, names) := Register(registry, server, cfg, tools);
      && (m in names ==> exists k :: 0 <= k < |tools| && RegisteredFor(after, server, cfg, tools[k], m))
      && (m in registry ==> m !in names && m in after && after[m] == registry[m])
      && (m in after && m !in registry ==> m in names)
    decreases |tools|
  {
    if tools != [] {
      var n := |tools| - 1;
      RegisteredAs(registry, server, cfg, tools[..n], m);
      var (front, names) := Register(registry, server, cfg, tools[..n]);
      if m in names {
        var k :| 0 <= k < n && RegisteredFor(front, server, cfg, tools[..n][k], m);
        assert RegisteredFor(Register(registry, server, cfg, tools).0, server, cfg, tools[k], m);
      }
    }
  }

  /** Exactly the tools that the configuration lets through become callable, each under its
      own name and for its own tool, unless the name was taken; under a local policy that is
      those both allowed and confirmed. */
  lemma RegisteredIffLetThrough(registry: map<string, Entry>, server: string, cfg: Config, tools: seq<string>, tool: string)
    requires RegName(server, tool) !in registry
    ensures var after := Register(registry, server, cfg, tools).0; var n := "mcp__" + server + "__" + tool;
      && (n in after <==> tool in tools && LetThrough(cfg, tool))
      && (n in after ==> after[n] == Mcp(server, tool))
  {
    var n := RegName(server, tool);
    RegisteredAs(registry, server, cfg, tools, n);
    if n in Register(registry, server, cfg, tools).0 {
      var k :| 0 <= k < |tools| && RegisteredFor(Register(registry, server, cfg, tools).0, server, cfg, tools[k], n);
      SamePrefix("mcp__" + server + "__", tool, tools[k]);
    }
    if tool in tools && LetThrough(cfg, tool) {
      var i :| 0 <= i < |tools| && tools[i] == tool;
      OfferedIsRegistered(registry, server, cfg, tools, i);
    }
  }

  lemma SamePrefix(prefix: string, a: string, b: string)
    requires prefix + a == prefix + b
    ensures a == b
  {
    assert a == (prefix + a)[|prefix|..] && b == (prefix + b)[|prefix|..];
  }

  // ---- what each step does -----------------------------------------------

  /** The server's own names are gone and everything else is as it was. */
  ghost predicate Removed(s: State, t: State, name: string) {
    && (forall n :: n in t.registry <==> n in s.registry && !OwnedBy(s.servers, name, n))
    && (forall n :: n in t.registry ==> t.registry[n] == s.registry[n])
    && name !in t.servers
    && (forall other :: other != name ==> (other in t.servers <==> other in s.servers)
                                          && (other in s.servers ==> t.servers[other] == s.servers[other]))
  }

  ghost predicate OtherOwnersStay(s: State, t: State, name: string) {
    forall other :: other != name ==>
      (other in t.owners <==> other in s.owners) && (other in s.owners ==> t.owners[other] == s.owners[other])
  }

  /** Shutting down and reloading an idle owner, and the closing of a call, take the server's
      names away; the owner then ends, or connects again if it is still configured. */
  lemma ClosingSteps(s: State, name: string, connects: bool)
    ensures name in s.owners && s.owners[name].Idle? ==>
      var t := Step(s, Shutdown(name)); Removed(s, t, name) && name !in t.owners && OtherOwnersStay(s, t, name)
    ensures name in s.owners && s.owners[name].Idle? ==>
      var t := Step(s, Reload(name, connects));
      && Removed(s, t, name) && OtherOwnersStay(s, t, name)
      && name in t.owners && t.owners[name] == if connects then Connecting else Idle
    ensures name in s.servers ==>
      var t := Step(s, CallCloses(name)); Removed(s, t, name) && t.owners == s.owners && name in t.calling
  {
  }

  /** A connection that comes up makes the server's tools callable and its own: exactly the
      names that were free and are let through. */
  lemma ConnectingStep(s: State, name: string, cfg: Config, tools: seq<string>, tool: string)
    requires name in s.owners && s.owners[name].Connecting?
    ensures var t := Step(s, Connected(name, cfg, tools)); var n := "mcp__" + name + "__" + tool;
      && name in t.owners && t.owners[name] == Idle && OtherOwnersStay(s, t, name) && name in t.servers
      && (forall m :: m in s.registry ==> m in t.registry && t.registry[m] == s.registry[m])
      && (n !in s.registry ==> (n in t.registry <==> tool in tools && LetThrough(cfg, tool)))
      && (n !in s.registry && n in t.registry ==> t.registry[n] == Mcp(name, tool) && OwnedBy(t.servers, name, n))
      && (n in s.registry ==> !OwnedBy(t.servers, name, n))
  {
    var n := RegName(name, tool);
    forall m | m in s.registry ensures m in Register(s.registry, name, cfg, tools).0 && Register(s.registry, name, cfg, tools).0[m] == s.registry[m] {
      RegisteredAs(s.registry, name, cfg, tools, m);
    }
    RegisteredAs(s.registry, name, cfg, tools, n);
    if n !in s.registry { RegisteredIffLetThrough(s.registry, name, cfg, tools, tool); }
  }

  /** An owner that is not there yet is spawned; one whose connection fails waits idle with
      nothing registered. */
  lemma OwnerSteps(s: State, name: string, connects: bool)
    ensures name !in s.owners ==>
      var t := Step(s, Spawn(name, connects));
      && name in t.owners && t.owners[name] == (if connects then Connecting else Idle) && OtherOwnersStay(s, t, name)
      && t.registry == s.registry && t.servers == s.servers
    ensures name in s.owners && s.owners[name].Connecting? ==>
      var t := Step(s, ConnectFailed(name));
      && name in t.owners && t.owners[name] == Idle && OtherOwnersStay(s, t, name)
      && t.registry == s.registry && t.servers == s.servers
  {
  }

  lemma OverlapConnects(base: map<string, Entry>, tool: string)
    requires RegName("a", tool) !in base
    ensures var cfg, name := Config({}, None), RegName("a", tool);
      var full := base[name := Mcp("a", tool)];
      && Register(base, "a", cfg, [tool]) == (full, [name]) && Register(full, "a", cfg, [tool]) == (full, [])
      && Without(full, [name]) == base && Without(full, []) == full
  {
    var cfg, name := Config({}, None), RegName("a", tool);
    RegisterOne(base, "a", cfg, tool);
    RegisterOne(base[name := Mcp("a", tool)], "a", cfg, tool);
  }

  lemma RunTwo(s: State, ops: seq<Op>, a: Op, b: Op, t: State, u: State)
    requires Step(Run(s, ops), a) == t && Step(t, b) == u
    ensures Run(s, ops + [a] + [b]) == u
  {
    RunSnoc(s, ops, a);
    RunSnoc(s, ops + [a], b);
  }

  lemma OverlapBegins(base: map<string, Entry>, tool: string)
    requires RegName("a", tool) !in base
    ensures Run(Start(base), [Spawn("a", true), Connected("a", Config({}, None), [tool]), CallCloses("a"), Reload("a", true)])
         == State(base, map[], map["a" := Connecting], {"a"})
  {
    var cfg, name := Config({}, None), RegName("a", tool);
    OverlapConnects(base, tool);
    var up := State(base[name := Mcp("a", tool)], map["a" := [name]], map["a" := Idle], {});
    var down := State(base, map[], map["a" := Idle], {"a"});
    var first := [] + [Spawn("a", true)] + [Connected("a", cfg, [tool])];
    RunTwo(Start(base), [], Spawn("a", true), Connected("a", cfg, [tool]), State(base, map[], map["a" := Connecting], {}), up);
    assert Step(up, CallCloses("a")) == down;
    RunTwo(Start(base), first, CallCloses("a"), Reload("a", true), down, State(base, map[], map["a" := Connecting], {"a"}));
    assert first + [CallCloses("a")] + [Reload("a", true)]
        == [Spawn("a", true), Connected("a", cfg, [tool]), CallCloses("a"), Reload("a", true)];
  }

  lemma OverlapEnds(s: State, base: map<string, Entry>, tool: string)
    requires RegName("a", tool) !in base && s == State(base, map[], map["a" := Connecting], {"a"})
    ensures var cfg := Config({}, None);
      Step(Step(Step(s, Connected("a", cfg, [tool])), CallConnects("a", cfg, [tool])), Shutdown("a"))
        == State(base[RegName("a", tool) := Mcp("a", tool)], map[], map[], {})
  {
    var cfg, name := Config({}, None), RegName("a", tool);
    var full := base[name := Mcp("a", tool)];
    OverlapConnects(base, tool);
    assert Step(s, Connected("a", cfg, [tool])) == State(full, map["a" := [name]], map["a" := Idle], {"a"});
    var lost := State(full, map["a" := []], map["a" := Idle], {});
    assert Step(State(full, map["a" := [name]], map["a" := Idle], {"a"}), CallConnects("a", cfg, [tool])) == lost;
    assert Step(lost, Shutdown("a")) == State(full, map[], map[], {});
  }

  /** The guard can fail: when the reconnect inside a tool call overlaps an owner's
      reload, the second connection finds the names taken and replaces the handle that
      owns them, so that shutting the server down leaves an entry behind. */
  lemma OverlappingReconnectLeavesOrphan(base: map<string, Entry>, tool: string)
    requires RegName("a", tool) !in base
    ensures var cfg := Config({}, None);
      var begun := [Spawn("a", true), Connected("a", cfg, [tool]), CallCloses("a"), Reload("a", true)];
      Run(Start(base), begun + [Connected("a", cfg, [tool])] + [CallConnects("a", cfg, [tool])] + [Shutdown("a")])
        == State(base[RegName("a", tool) := Mcp("a", tool)], map[], map[], {})
  {
    var cfg := Config({}, None);
    var begun := [Spawn("a", true), Connected("a", cfg, [tool]), CallCloses("a"), Reload("a", true)];
    var s := Run(Start(base), begun);
    OverlapBegins(base, tool);
    OverlapEnds(s, base, tool);
    RunSnoc(Start(base), begun, Connected("a", cfg, [tool]));
    RunSnoc(Start(base), begun + [Connected("a", cfg, [tool])], CallConnects("a", cfg, [tool]));
    RunSnoc(Start(base), begun + [Connected("a", cfg, [tool])] + [CallConnects("a", cfg, [tool])], Shutdown("a"));
  }

  lemma RegisterOne(registry: map<string, Entry>, server: string, cfg: Config, tool: string)
    ensures var name := RegName(server, tool);
      Register(registry, server, cfg, [tool])
        == if Offered(cfg, tool) && name !in registry then (registry[name := Mcp(server, tool)], [name]) else (registry, [])
  {
    var name := RegName(server, tool);
    assert [tool][..0] == [] && [tool][0] == tool && [] + [name] == [name];
    assert Register(registry, server, cfg, [tool][..0]) == (registry, []);
  }

  lemma RegisterSnoc(registry: map<string, Entry>, server: string, cfg: Config, tools: seq<string>, tool: string)
    ensures var (front, names) := Register(registry, server, cfg, tools); var name := RegName(server, tool);
      Register(registry, server, cfg, tools + [tool])
        == if Offered(cfg, tool) && name !in front then (front[name := Mcp(server, tool)], names + [name]) else (front, names)
  {
    assert (tools + [tool])[..|tools|] == tools;
  }

  lemma RunSnoc(s: State, ops: seq<Op>, op: Op)
    ensures Run(s, ops + [op]) == Step(Run(s, ops), op)
  {
    assert (ops + [op])[..|ops|] == ops;
  }

  // ---- The registry as it is updated -------------------------------------

  class Client {
    var registry: map<string, Entry>
    var servers: map<string, seq<string>>

    constructor (registry: map<string, Entry>)
      ensures this.registry == registry && servers == map[]
    {
      this.registry, this.servers := registry, map[];
    }

    method ConnectServer(name: string, cfg: Config, tools: seq<string>)
      modifies this
      ensures name in servers && (registry, servers[name]) == Register(old(registry), name, cfg, tools)
      ensures servers == old(servers)[name := servers[name]]
    {
      var names: seq<string> := [];
      for i := 0 to |tools|
        invariant servers == old(servers)
        invariant (registry, names) == Register(old(registry), name, cfg, tools[..i])
      {
        var tool := tools[i];
        assert tools[..i + 1] == tools[..i] + [tool];
        RegisterSnoc(old(registry), name, cfg, tools[..i], tool);
        if !Offered(cfg, tool) { continue; }
        var regName := RegName(name, tool);
        if regName in registry { continue; }
        registry := registry[regName := Mcp(name, tool)];
        names := names + [regName];
      }
      assert tools[..|tools|] == tools;
      servers := servers[name := names];
    }

    method CloseServer(name: string)
      modifies this
      ensures forall owners, calling ::
        State(registry, servers, owners, calling) == Close(State(old(registry), old(servers), owners, calling), name)
    {
      if name !in servers { return; }
      var names := servers[name];
      servers := servers - {name};
      for i := 0 to |names|
        invariant registry == Without(old(registry), names[..i])
        invariant servers == old(servers) - {name}
      {
        registry := registry - {names[i]};
      }
      assert names[..|names|] == names;
    }
  }
}
