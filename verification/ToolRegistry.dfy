/**
 The live tool registry: one map from tool names to providers, one from
 connections to tool names. Both are read off the same history: a pair of
 connection and tool is current since the registration that has not been
 undone, and both maps list what is current, oldest first.
 */
module ToolRegistry {
  import opened Basics

  // ---- The two maps ---------------------------------------------------------

  /** `rest` is everything in a tool's specification but its name. */
  datatype Spec = Spec(name: string, rest: string)

  datatype Provider = Provider(connection: string, tool: Spec)

  datatype Registry = Registry(providers: map<string, seq<Provider>>, tools: map<string, seq<string>>)

  const Empty := Registry(map[], map[])

  function Get<V>(m: map<string, seq<V>>, key: string): seq<V> {
    if key in m then m[key] else []
  }

  /** An emptied list is taken out of the map. */
  function Kept<V(==)>(m: map<string, seq<V>>, key: string, list: seq<V>): map<string, seq<V>> {
    if list == [] then m - {key} else m[key := list]
  }

  function Put(ps: seq<Provider>, p: Provider): seq<Provider> {
    if ps == [] then [p]
    else if ps[0].connection == p.connection then [p] + ps[1..]
    else [ps[0]] + Put(ps[1..], p)
  }

  function Without(ps: seq<Provider>, connection: string): seq<Provider> {
    if ps == [] then []
    else if ps[0].connection == connection then Without(ps[1..], connection)
    else [ps[0]] + Without(ps[1..], connection)
  }

  function Minus(keys: seq<string>, key: string): seq<string> {
    if keys == [] then []
    else if keys[0] == key then Minus(keys[1..], key)
    else [keys[0]] + Minus(keys[1..], key)
  }

  function Connections(ps: seq<Provider>): (r: seq<string>)
    ensures |r| == |ps|
  {
    seq(|ps|, i requires 0 <= i < |ps| => ps[i].connection)
  }

  function Registered(r: Registry, connection: string, tool: Spec): Registry {
    var names := Get(r.tools, connection);
    Registry(r.providers[tool.name := Put(Get(r.providers, tool.name), Provider(connection, tool))],
             r.tools[connection := if tool.name in names then names else names + [tool.name]])
  }

  predicate Provides(r: Registry, connection: string, name: string) {
    connection in Connections(Get(r.providers, name))
  }

  function Unregistered(r: Registry, connection: string, name: string): Registry {
    Registry(
      if name in r.providers then Kept(r.providers, name, Without(r.providers[name], connection)) else r.providers,
      if Provides(r, connection, name) && connection in r.tools
      then Kept(r.tools, connection, Minus(r.tools[connection], name)) else r.tools)
  }

  function Dropped(providers: map<string, seq<Provider>>, connection: string, names: seq<string>)
    : map<string, seq<Provider>>
  {
    if names == [] then providers else
      var m, name := Dropped(providers, connection, names[..|names| - 1]), names[|names| - 1];
      if name in m then Kept(m, name, Without(m[name], connection)) else m
  }

  function Disconnected(r: Registry, connection: string): Registry {
    Registry(Dropped(r.providers, connection, Get(r.tools, connection)), r.tools - {connection})
  }

  function Resolve(r: Registry, name: string): Option<Provider> {
    var ps := Get(r.providers, name);
    if ps == [] then None else Some(ps[0])
  }

  // ---- Runs -----------------------------------------------------------------

  datatype Op =
    | Register(connection: string, tool: Spec)
    | Unregister(connection: string, name: string)
    | Disconnect(connection: string)

  function Do(r: Registry, op: Op): Registry {
    match op
    case Register(connection, tool) => Registered(r, connection, tool)
    case Unregister(connection, name) => Unregistered(r, connection, name)
    case Disconnect(connection) => Disconnected(r, connection)
  }

  function After(ops: seq<Op>): Registry {
    if ops == [] then Empty else Do(After(ops[..|ops| - 1]), ops[|ops| - 1])
  }

  /** The index of the operation that made this registration, while it stands.
      Registering again does not make it younger. */
  function Since(ops: seq<Op>, connection: string, name: string): (r: Option<nat>)
    ensures r.Some? ==> r.value < |ops|
  {
    if ops == [] then None
    else NextSince(ops[|ops| - 1], |ops| - 1, connection, name, Since(ops[..|ops| - 1], connection, name))
  }

  function NextSince(op: Op, now: nat, connection: string, name: string, since: Option<nat>): Option<nat> {
    if op.connection != connection then since
    else match op
      case Register(_, tool) => if tool.name == name && since.None? then Some(now) else since
      case Unregister(_, undone) => if undone == name then None else since
      case Disconnect(_) => None
  }

  /** The specification the connection gave last for this tool. */
  function Latest(ops: seq<Op>, connection: string, name: string): Option<Spec> {
    if ops == [] then None else
      var op := ops[|ops| - 1];
      if op.Register? && op.connection == connection && op.tool.name == name then Some(op.tool)
      else Latest(ops[..|ops| - 1], connection, name)
  }

  function ConnectionAges(ops: seq<Op>, name: string): string -> Option<nat> {
    connection => Since(ops, connection, name)
  }

  function ToolAges(ops: seq<Op>, connection: string): string -> Option<nat> {
    name => Since(ops, connection, name)
  }

  /** The list holds exactly the keys that have an age, each once, by age. */
  ghost predicate ByAge(keys: seq<string>, age: string -> Option<nat>) {
    (forall k :: k in keys <==> age(k).Some?) && Rising(keys, age)
  }

  predicate Older(age: string -> Option<nat>, a: string, b: string) {
    age(a).Some? && age(b).Some? && age(a).value < age(b).value
  }

  ghost predicate Rising(keys: seq<string>, age: string -> Option<nat>) {
    keys != [] ==> (forall k :: k in keys[1..] ==> Older(age, keys[0], k)) && Rising(keys[1..], age)
  }

  ghost predicate SpecsAreLatest(ps: seq<Provider>, ops: seq<Op>, name: string) {
    forall p :: p in ps ==> Latest(ops, p.connection, name) == Some(p.tool)
  }

  predicate NoEmptyLists<V(==)>(m: map<string, seq<V>>) {
    forall key :: key in m ==> m[key] != []
  }

  ghost predicate ProvidersTrackName(providers: map<string, seq<Provider>>, ops: seq<Op>, name: string) {
    var ps := Get(providers, name);
    ByAge(Connections(ps), ConnectionAges(ops, name)) && SpecsAreLatest(ps, ops, name)
  }

  ghost predicate ToolsTrackConnection(tools: map<string, seq<string>>, ops: seq<Op>, connection: string) {
    ByAge(Get(tools, connection), ToolAges(ops, connection))
  }

  // ---- Lists ordered by age -------------------------------------------------

  lemma {:induction false} RisingAdds(keys: seq<string>, age: string -> Option<nat>, key: string)
    requires Rising(keys, age) && forall k :: k in keys ==> Older(age, k, key)
    ensures Rising(keys + [key], age)
  {
    if keys == [] {
      assert keys + [key] == [key];
    } else {
      RisingAdds(keys[1..], age, key);
      assert (keys + [key])[1..] == keys[1..] + [key];
    }
  }

  lemma {:induction false} RisingSame(keys: seq<string>, age: string -> Option<nat>, age': string -> Option<nat>)
    requires Rising(keys, age) && forall k :: k in keys ==> age'(k) == age(k)
    ensures Rising(keys, age')
  {
    if keys != [] {
      RisingSame(keys[1..], age, age');
    }
  }

  lemma {:induction false} RisingMinus(keys: seq<string>, age: string -> Option<nat>, key: string)
    requires Rising(keys, age)
    ensures Rising(Minus(keys, key), age)
  {
    if keys != [] {
      RisingMinus(keys[1..], age, key);
      MinusMembers(keys[1..], key);
    }
  }

  lemma {:induction false} MinusMembers(keys: seq<string>, key: string)
    ensures forall k :: k in Minus(keys, key) <==> k in keys && k != key
    ensures key !in keys ==> Minus(keys, key) == keys
  {
    if keys != [] {
      MinusMembers(keys[1..], key);
      assert keys == [keys[0]] + keys[1..];
    }
  }

  lemma {:induction false} RisingDistinct(keys: seq<string>, age: string -> Option<nat>)
    requires Rising(keys, age)
    ensures Distinct(keys)
  {
    if keys != [] {
      RisingDistinct(keys[1..], age);
    }
  }

  predicate Distinct(keys: seq<string>) {
    keys != [] ==> keys[0] !in keys[1..] && Distinct(keys[1..])
  }

  lemma AgeAdds(keys: seq<string>, age: string -> Option<nat>, age': string -> Option<nat>, key: string, now: nat)
    requires ByAge(keys, age) && age(key).None? && age'(key) == Some(now)
    requires forall k :: k != key ==> age'(k) == age(k)
    requires forall k :: age(k).Some? ==> age(k).value < now
    ensures ByAge(keys + [key], age')
  {
    RisingSame(keys, age, age');
    RisingAdds(keys, age', key);
  }

  lemma AgeSame(keys: seq<string>, age: string -> Option<nat>, age': string -> Option<nat>)
    requires ByAge(keys, age)
    requires forall k :: age'(k) == age(k)
    ensures ByAge(keys, age')
  {
    RisingSame(keys, age, age');
  }

  lemma {:induction false} AgeRemoves(
    keys: seq<string>, age: string -> Option<nat>, age': string -> Option<nat>, key: string)
    requires ByAge(keys, age) && age'(key).None?
    requires forall k :: k != key ==> age'(k) == age(k)
    ensures ByAge(Minus(keys, key), age')
  {
    MinusMembers(keys, key);
    RisingMinus(keys, age, key);
    RisingSame(Minus(keys, key), age, age');
  }

  lemma {:induction false} PutConnections(ps: seq<Provider>, p: Provider)
    ensures Connections(Put(ps, p))
         == if p.connection in Connections(ps) then Connections(ps) else Connections(ps) + [p.connection]
  {
    if ps == [] {
      assert Connections([p]) == [p.connection];
    } else {
      var cs := Connections(ps);
      assert cs == [ps[0].connection] + Connections(ps[1..]);
      if ps[0].connection == p.connection {
        assert Connections([p] + ps[1..]) == cs;
      } else {
        PutConnections(ps[1..], p);
        ConnectionsCons(ps[0], Put(ps[1..], p));
      }
    }
  }

  lemma ConnectionsCons(p: Provider, ps: seq<Provider>)
    ensures Connections([p] + ps) == [p.connection] + Connections(ps)
  {
  }

  lemma {:induction false} PutMembers(ps: seq<Provider>, p: Provider)
    requires Distinct(Connections(ps))
    ensures forall q :: q in Put(ps, p) ==> q == p || (q in ps && q.connection != p.connection)
  {
    if ps != [] {
      var cs := Connections(ps);
      assert cs[1..] == Connections(ps[1..]) && cs[0] == ps[0].connection;
      if ps[0].connection == p.connection {
        forall q | q in ps[1..] ensures q.connection != p.connection {
          var i :| 0 <= i < |ps[1..]| && ps[1..][i] == q;
          assert Connections(ps[1..])[i] == q.connection;
        }
      } else {
        PutMembers(ps[1..], p);
      }
    }
  }

  lemma {:induction false} WithoutConnections(ps: seq<Provider>, connection: string)
    ensures Connections(Without(ps, connection)) == Minus(Connections(ps), connection)
    ensures forall p :: p in Without(ps, connection) ==> p in ps && p.connection != connection
  {
    if ps == [] {
      assert Connections(ps) == [];
    } else {
      WithoutConnections(ps[1..], connection);
      var cs := Connections(ps);
      assert cs[1..] == Connections(ps[1..]) && cs[0] == ps[0].connection;
      if ps[0].connection != connection {
        assert Connections([ps[0]] + Without(ps[1..], connection))
            == [cs[0]] + Connections(Without(ps[1..], connection));
      }
    }
  }

  // ---- Every operation keeps both maps right --------------------------------

  lemma SinceSnoc(ops: seq<Op>, op: Op)
    ensures forall connection, name ::
      Since(ops + [op], connection, name) == NextSince(op, |ops|, connection, name, Since(ops, connection, name))
  {
    assert (ops + [op])[..|ops|] == ops;
  }

  lemma LatestSnoc(ops: seq<Op>, op: Op, ps: seq<Provider>, name: string)
    requires SpecsAreLatest(ps, ops, name)
    requires op.Register? && op.tool.name == name ==> forall p :: p in ps ==> p.connection != op.connection
    ensures SpecsAreLatest(ps, ops + [op], name)
  {
    assert (ops + [op])[..|ops|] == ops;
  }

  lemma KeptGets<V>(m: map<string, seq<V>>, key: string, list: seq<V>, other: string)
    ensures Get(Kept(m, key, list), other) == if other == key then list else Get(m, other)
    ensures NoEmptyLists(m) ==> NoEmptyLists(Kept(m, key, list))
  {
  }

  lemma RegisterTracksName(r: Registry, ops: seq<Op>, connection: string, tool: Spec, name: string)
    requires ProvidersTrackName(r.providers, ops, name)
    ensures ProvidersTrackName(Registered(r, connection, tool).providers, ops + [Register(connection, tool)], name)
  {
    var op := Register(connection, tool);
    var ops', ps := ops + [op], Get(r.providers, name);
    var age, age' := ConnectionAges(ops, name), ConnectionAges(ops', name);
    SinceSnoc(ops, op);
    hide Since, Latest, ByAge, SpecsAreLatest, Connections, Put;
    if tool.name != name {
      AgeSame(Connections(ps), age, age');
      LatestSnoc(ops, op, ps, name);
    } else {
      var p := Provider(connection, tool);
      PutTracks(ops, ps, p, age, age');
      assert Get(Registered(r, connection, tool).providers, name) == Put(ps, p);
    }
  }

  lemma {:induction false} PutTracks(
    ops: seq<Op>, ps: seq<Provider>, p: Provider, age: string -> Option<nat>, age': string -> Option<nat>)
    requires ByAge(Connections(ps), age) && SpecsAreLatest(ps, ops, p.tool.name)
    requires forall c :: age(c).Some? ==> age(c).value < |ops|
    requires forall c :: c != p.connection || age(c).Some? ==> age'(c) == age(c)
    requires age(p.connection).None? ==> age'(p.connection) == Some(|ops|)
    ensures ByAge(Connections(Put(ps, p)), age')
    ensures SpecsAreLatest(Put(ps, p), ops + [Register(p.connection, p.tool)], p.tool.name)
  {
    PutConnections(ps, p);
    RisingDistinct(Connections(ps), age);
    PutMembers(ps, p);
    PutIsLatest(ops, ps, p);
    hide SpecsAreLatest, Rising, Put, Connections;
    if age(p.connection).Some? {
      AgeSame(Connections(ps), age, age');
    } else {
      AgeAdds(Connections(ps), age, age', p.connection, |ops|);
    }
  }

  lemma PutIsLatest(ops: seq<Op>, ps: seq<Provider>, p: Provider)
    requires SpecsAreLatest(ps, ops, p.tool.name)
    requires forall q :: q in Put(ps, p) ==> q == p || (q in ps && q.connection != p.connection)
    ensures SpecsAreLatest(Put(ps, p), ops + [Register(p.connection, p.tool)], p.tool.name)
  {
    hide Put;
    var op := Register(p.connection, p.tool);
    assert (ops + [op])[..|ops|] == ops;
  }

  lemma WithoutTracks(ops: seq<Op>, op: Op, ps: seq<Provider>, name: string)
    requires !op.Register?
    requires ByAge(Connections(ps), ConnectionAges(ops, name)) && SpecsAreLatest(ps, ops, name)
    requires op.Unregister? ==> op.name == name
    ensures ByAge(Connections(Without(ps, op.connection)), ConnectionAges(ops + [op], name))
    ensures SpecsAreLatest(Without(ps, op.connection), ops + [op], name)
    ensures Since(ops, op.connection, name).None? ==> Connections(Without(ps, op.connection)) == Connections(ps)
  {
    SinceSnoc(ops, op);
    LatestSnoc(ops, op, ps, name);
    WithoutConnections(ps, op.connection);
    MinusMembers(Connections(ps), op.connection);
    assert Since(ops, op.connection, name).None? ==> ConnectionAges(ops, name)(op.connection).None?;
    hide Since, Latest, Rising, Without, Minus, Connections;
    AgeRemoves(Connections(ps), ConnectionAges(ops, name), ConnectionAges(ops + [op], name), op.connection);
  }

  lemma UnregisterTracksName(r: Registry, ops: seq<Op>, connection: string, undone: string, name: string)
    requires ProvidersTrackName(r.providers, ops, name)
    ensures ProvidersTrackName(Unregistered(r, connection, undone).providers,
                               ops + [Unregister(connection, undone)], name)
  {
    var op, ps := Unregister(connection, undone), Get(r.providers, name);
    SinceSnoc(ops, op);
    LatestSnoc(ops, op, ps, name);
    if name == undone {
      WithoutTracks(ops, op, ps, name);
    }
    hide Since, Latest, ByAge, SpecsAreLatest, Connections, Kept;
    if name == undone {
      if name in r.providers {
        KeptGets(r.providers, name, Without(ps, connection), name);
      } else {
        assert Without(ps, connection) == ps;
      }
    } else {
      AgeSame(Connections(ps), ConnectionAges(ops, name), ConnectionAges(ops + [op], name));
      if undone in r.providers {
        KeptGets(r.providers, undone, Without(r.providers[undone], connection), name);
      }
    }
  }

  lemma {:induction false} DroppedGets(
    providers: map<string, seq<Provider>>, connection: string, names: seq<string>, name: string)
    requires Distinct(names)
    ensures var ps := Get(providers, name);
      Get(Dropped(providers, connection, names), name) == if name in names then Without(ps, connection) else ps
    ensures NoEmptyLists(providers) ==> NoEmptyLists(Dropped(providers, connection, names))
    decreases |names|
  {
    hide Kept;
    if names != [] {
      var init, last := names[..|names| - 1], names[|names| - 1];
      DistinctInit(names);
      DroppedGets(providers, connection, init, name);
      DroppedGets(providers, connection, init, last);
      var m := Dropped(providers, connection, init);
      if last in m {
        KeptGets(m, last, Without(m[last], connection), name);
      }
      assert names == init + [last];
    }
  }

  lemma {:induction false} DistinctInit(names: seq<string>)
    requires names != [] && Distinct(names)
    ensures Distinct(names[..|names| - 1]) && names[|names| - 1] !in names[..|names| - 1]
  {
    if |names| > 1 {
      DistinctInit(names[1..]);
      assert names[1..][..|names| - 2] == names[..|names| - 1][1..];
      assert names[..|names| - 1] == [names[0]] + names[1..][..|names| - 2];
    }
  }

  lemma DisconnectTracksName(r: Registry, ops: seq<Op>, connection: string, name: string)
    requires ProvidersTrackName(r.providers, ops, name)
    requires ToolsTrackConnection(r.tools, ops, connection)
    ensures ProvidersTrackName(Disconnected(r, connection).providers, ops + [Disconnect(connection)], name)
  {
    var op, ps, names := Disconnect(connection), Get(r.providers, name), Get(r.tools, connection);
    WithoutTracks(ops, op, ps, name);
    LatestSnoc(ops, op, ps, name);
    RisingDistinct(names, ToolAges(ops, connection));
    assert name in names <==> ToolAges(ops, connection)(name).Some?;
    hide Since, Latest, Rising, SpecsAreLatest, Connections, Dropped, Distinct;
    DroppedGets(r.providers, connection, names, name);
  }

  lemma RegisterTracksConnection(r: Registry, ops: seq<Op>, connection: string, tool: Spec, other: string)
    requires ToolsTrackConnection(r.tools, ops, other)
    ensures ToolsTrackConnection(Registered(r, connection, tool).tools, ops + [Register(connection, tool)], other)
  {
    var op, names := Register(connection, tool), Get(r.tools, other);
    var age, age' := ToolAges(ops, other), ToolAges(ops + [op], other);
    SinceSnoc(ops, op);
    assert tool.name in names <==> age(tool.name).Some?;
    hide Since, ByAge, Put;
    if other == connection && age(tool.name).None? {
      AgeAdds(names, age, age', tool.name, |ops|);
    } else {
      AgeSame(names, age, age');
    }
  }

  lemma UnregisterTracksConnection(r: Registry, ops: seq<Op>, connection: string, undone: string, other: string)
    requires ToolsTrackConnection(r.tools, ops, other)
    requires ProvidersTrackName(r.providers, ops, undone)
    ensures ToolsTrackConnection(Unregistered(r, connection, undone).tools,
                                 ops + [Unregister(connection, undone)], other)
  {
    var op, names := Unregister(connection, undone), Get(r.tools, other);
    var age, age' := ToolAges(ops, other), ToolAges(ops + [op], other);
    SinceSnoc(ops, op);
    assert Provides(r, connection, undone) <==> ConnectionAges(ops, undone)(connection).Some?;
    assert undone in names <==> age(undone).Some?;
    hide Since, ByAge, Minus, Kept, Without, Connections;
    if other == connection && Provides(r, connection, undone) {
      AgeRemoves(names, age, age', undone);
      assert connection in r.tools;
      KeptGets(r.tools, connection, Minus(names, undone), other);
    } else {
      AgeSame(names, age, age');
      if Provides(r, connection, undone) && connection in r.tools {
        KeptGets(r.tools, connection, Minus(r.tools[connection], undone), other);
      }
    }
  }

  lemma DisconnectTracksConnection(r: Registry, ops: seq<Op>, connection: string, other: string)
    requires ToolsTrackConnection(r.tools, ops, other)
    ensures ToolsTrackConnection(Disconnected(r, connection).tools, ops + [Disconnect(connection)], other)
  {
    var op, names := Disconnect(connection), Get(r.tools, other);
    var age, age' := ToolAges(ops, other), ToolAges(ops + [op], other);
    SinceSnoc(ops, op);
    if other == connection {
      assert Get(r.tools - {connection}, other) == [];
      assert forall k :: age'(k).None?;
    } else {
      assert Get(r.tools - {connection}, other) == names;
      AgeSame(names, age, age');
    }
  }

  lemma NothingLeftEmpty(r: Registry, op: Op)
    requires NoEmptyLists(r.providers) && NoEmptyLists(r.tools)
    requires Distinct(Get(r.tools, op.connection))
    ensures NoEmptyLists(Do(r, op).providers) && NoEmptyLists(Do(r, op).tools)
  {
    hide Without, Minus, Distinct, Dropped, Connections;
    match op
    case Register(connection, tool) =>
      assert Put(Get(r.providers, tool.name), Provider(connection, tool)) != [];
    case Unregister(connection, name) =>
      if name in r.providers {
        KeptGets(r.providers, name, Without(r.providers[name], connection), name);
      }
      if connection in r.tools {
        KeptGets(r.tools, connection, Minus(r.tools[connection], name), connection);
      }
    case Disconnect(connection) =>
      DroppedGets(r.providers, connection, Get(r.tools, connection), "");
  }

  ghost predicate Tracks(r: Registry, ops: seq<Op>) {
    && NoEmptyLists(r.providers) && NoEmptyLists(r.tools)
    && (forall name :: ProvidersTrackName(r.providers, ops, name))
    && (forall connection :: ToolsTrackConnection(r.tools, ops, connection))
  }

  lemma StepTracks(r: Registry, ops: seq<Op>, op: Op)
    requires Tracks(r, ops)
    ensures Tracks(Do(r, op), ops + [op])
  {
    hide ProvidersTrackName, Registered, Unregistered, Disconnected, NoEmptyLists;
    assert ToolsTrackConnection(r.tools, ops, op.connection);
    RisingDistinct(Get(r.tools, op.connection), ToolAges(ops, op.connection));
    hide ToolsTrackConnection, ByAge, Rising, Distinct;
    NothingLeftEmpty(r, op);
    forall name ensures ProvidersTrackName(Do(r, op).providers, ops + [op], name) {
      match op
      case Register(connection, tool) => RegisterTracksName(r, ops, connection, tool, name);
      case Unregister(connection, undone) => UnregisterTracksName(r, ops, connection, undone, name);
      case Disconnect(connection) => DisconnectTracksName(r, ops, connection, name);
    }
    forall other ensures ToolsTrackConnection(Do(r, op).tools, ops + [op], other) {
      match op
      case Register(connection, tool) => RegisterTracksConnection(r, ops, connection, tool, other);
      case Unregister(connection, undone) => UnregisterTracksConnection(r, ops, connection, undone, other);
      case Disconnect(connection) => DisconnectTracksConnection(r, ops, connection, other);
    }
  }

  lemma {:induction false} EveryRunIsTracked(ops: seq<Op>)
    ensures Tracks(After(ops), ops)
  {
    hide Do;
    if ops == [] {
      NothingTracks();
    } else {
      EveryRunIsTracked(ops[..|ops| - 1]);
      StepTracks(After(ops[..|ops| - 1]), ops[..|ops| - 1], ops[|ops| - 1]);
      hide Tracks;
      assert ops[..|ops| - 1] + [ops[|ops| - 1]] == ops;
    }
  }

  lemma NothingTracks()
    ensures Tracks(Empty, [])
  {
    forall name ensures ProvidersTrackName(Empty.providers, [], name) {
      assert Connections(Get(Empty.providers, name)) == [];
    }
  }

  // ---- What callers rely on -------------------------------------------------

  /** The maps are each other's inverse, list nothing twice and hold no empty list. */
  lemma MapsAreInverse(ops: seq<Op>)
    ensures var r := After(ops);
      && NoEmptyLists(r.providers) && NoEmptyLists(r.tools)
      && (forall name :: Distinct(Connections(Get(r.providers, name))))
      && (forall connection :: Distinct(Get(r.tools, connection)))
      && (forall connection, name :: Provides(r, connection, name) <==> name in Get(r.tools, connection))
  {
    var r := After(ops);
    EveryRunIsTracked(ops);
    hide After, Since, NoEmptyLists, Rising, Connections, Distinct;
    forall name ensures Distinct(Connections(Get(r.providers, name))) {
      assert ProvidersTrackName(r.providers, ops, name);
      RisingDistinct(Connections(Get(r.providers, name)), ConnectionAges(ops, name));
    }
    forall connection ensures Distinct(Get(r.tools, connection)) {
      assert ToolsTrackConnection(r.tools, ops, connection);
      RisingDistinct(Get(r.tools, connection), ToolAges(ops, connection));
    }
    forall connection, name ensures Provides(r, connection, name) <==> name in Get(r.tools, connection) {
      assert ProvidersTrackName(r.providers, ops, name) && ToolsTrackConnection(r.tools, ops, connection);
      assert ConnectionAges(ops, name)(connection) == ToolAges(ops, connection)(name);
    }
  }

  /** No other connection's registration of the tool is current and as old. */
  ghost predicate IsOldest(ops: seq<Op>, connection: string, name: string) {
    Since(ops, connection, name).Some? &&
    forall other :: other != connection && Since(ops, other, name).Some? ==>
      Since(ops, connection, name).value < Since(ops, other, name).value
  }

  /** A tool resolves to the connection whose registration has stood longest,
      with the specification that connection gave last; to nobody exactly when
      no registration is current. */
  lemma OldestWins(ops: seq<Op>, name: string)
    ensures var r := Resolve(After(ops), name);
      if r.Some? then
        IsOldest(ops, r.value.connection, name) && Latest(ops, r.value.connection, name) == Some(r.value.tool)
      else forall connection :: Since(ops, connection, name).None?
  {
    EveryRunIsTracked(ops);
    hide After, Since, Latest, NoEmptyLists;
    var ps, age := Get(After(ops).providers, name), ConnectionAges(ops, name);
    assert ProvidersTrackName(After(ops).providers, ops, name);
    var cs := Connections(ps);
    if ps == [] {
      forall c ensures Since(ops, c, name).None? {
        assert c !in cs && age(c) == Since(ops, c, name);
      }
    } else {
      assert ps[0] in ps && cs[0] == ps[0].connection && cs[0] in cs;
      assert age(cs[0]) == Since(ops, cs[0], name) && age(cs[0]).Some?;
      forall c | c != cs[0] && Since(ops, c, name).Some?
        ensures Since(ops, cs[0], name).value < Since(ops, c, name).value
      {
        assert age(c) == Since(ops, c, name) && c in cs && c in cs[1..];
        assert Older(age, cs[0], c);
      }
    }
  }

  /** What one operation does to who serves a tool. Registering takes nobody's
      place: the tool goes to the caller only if nobody had it, or if the caller
      did, and then with the new specification. */
  lemma RegisteringTakesNoPlace(ops: seq<Op>, connection: string, tool: Spec, name: string)
    ensures var before, after := Resolve(After(ops), name), Resolve(After(ops + [Register(connection, tool)]), name);
      after ==
        if name == tool.name && (before.None? || before.value.connection == connection)
        then Some(Provider(connection, tool)) else before
  {
    AfterSnoc(ops, Register(connection, tool));
    hide After;
  }

  /** A connection that unregisters or leaves gives up its tools, and only those;
      each goes to nobody, or to another connection that had registered it. */
  lemma LeavingPassesOn(ops: seq<Op>, op: Op, name: string)
    requires !op.Register?
    ensures var before, after := Resolve(After(ops), name), Resolve(After(ops + [op]), name);
      var given := before.Some? && before.value.connection == op.connection && (op.Unregister? ==> op.name == name);
      if given then after.Some? ==>
        after.value.connection != op.connection && Since(ops, after.value.connection, name).Some?
      else after == before
  {
    hide After, Since, Latest, Resolve;
    OldestWins(ops, name);
    OldestWins(ops + [op], name);
    SinceSnoc(ops, op);
    LatestOfOthers(ops, op, name);
  }

  lemma LatestOfOthers(ops: seq<Op>, op: Op, name: string)
    requires !op.Register?
    ensures forall connection :: Latest(ops + [op], connection, name) == Latest(ops, connection, name)
  {
    assert (ops + [op])[..|ops|] == ops;
  }

  /** After a connection is dropped it provides nothing and owns nothing; every
      other connection's registrations stand as before, age and all. */
  lemma DisconnectLeavesNothing(ops: seq<Op>, connection: string)
    ensures var r := After(ops + [Disconnect(connection)]);
      && (forall name :: !Provides(r, connection, name))
      && connection !in r.tools
      && (forall other, name | other != connection ::
            && Provides(r, other, name) == Provides(After(ops), other, name)
            && Since(ops + [Disconnect(connection)], other, name) == Since(ops, other, name))
  {
    var op := Disconnect(connection);
    EveryRunIsTracked(ops);
    EveryRunIsTracked(ops + [op]);
    SinceSnoc(ops, op);
    assert (ops + [op])[..|ops|] == ops;
    assert After(ops + [op]) == Disconnected(After(ops), connection);
    assert connection !in After(ops + [op]).tools;
    hide After, Since, Rising, NoEmptyLists, Connections;
    forall other, name
      ensures Provides(After(ops + [op]), other, name) == (other != connection && Provides(After(ops), other, name))
    {
      assert ProvidersTrackName(After(ops).providers, ops, name);
      assert ProvidersTrackName(After(ops + [op]).providers, ops + [op], name);
      assert ConnectionAges(ops, name)(other) == Since(ops, other, name);
      assert ConnectionAges(ops + [op], name)(other) == Since(ops + [op], other, name);
    }
  }

  /** The connections a duplicate-registration warning names. */
  function Existing(r: Registry, name: string): seq<string> {
    Connections(Get(r.providers, name))
  }

  /** They are the connections whose registration of the tool is current, oldest
      first, the caller among them when it registers again. */
  lemma ExistingAreCurrent(ops: seq<Op>, name: string)
    ensures ByAge(Existing(After(ops), name), ConnectionAges(ops, name))
  {
    EveryRunIsTracked(ops);
    assert ProvidersTrackName(After(ops).providers, ops, name);
  }

  lemma {:induction false} ToolsAreCurrent(ops: seq<Op>, connection: string)
    ensures ByAge(Get(After(ops).tools, connection), ToolAges(ops, connection))
  {
    EveryRunIsTracked(ops);
    assert ToolsTrackConnection(After(ops).tools, ops, connection);
  }

  lemma AfterSnoc(ops: seq<Op>, op: Op)
    ensures After(ops + [op]) == Do(After(ops), op)
  {
    assert (ops + [op])[..|ops|] == ops;
  }

  // ---- The registry as the source updates it --------------------------------

  /** `history` lists the operations so far; the contracts speak of it. */
  class ToolRegistry {
    var providersByTool: map<string, seq<Provider>>
    var toolsByConnection: map<string, seq<string>>
    ghost var history: seq<Op>

    constructor ()
      ensures Valid() && history == []
    {
      providersByTool, toolsByConnection, history := map[], map[], [];
    }

    function View(): Registry
      reads this
    {
      Registry(providersByTool, toolsByConnection)
    }

    ghost predicate Valid()
      reads this
    {
      View() == After(history)
    }

    /** Returns the connections a duplicate-registration warning names, if any:
        exactly the current providers of the tool, oldest first. */
    method Register(connection: string, tool: Spec) returns (existing: seq<string>)
      requires Valid()
      modifies this
      ensures Valid() && history == old(history) + [Op.Register(connection, tool)]
      ensures ByAge(existing, ConnectionAges(old(history), tool.name))
    {
      hide After, ByAge, Put, Connections;
      AfterSnoc(history, Op.Register(connection, tool));
      ExistingAreCurrent(history, tool.name);
      var providers := Get(providersByTool, tool.name);
      existing := Connections(providers);
      providersByTool := providersByTool[tool.name := Put(providers, Provider(connection, tool))];
      var names := Get(toolsByConnection, connection);
      if tool.name !in names {
        names := names + [tool.name];
      }
      toolsByConnection := toolsByConnection[connection := names];
      history := history + [Op.Register(connection, tool)];
    }

    /** Returns whether the registration was current. */
    method Unregister(connection: string, name: string) returns (removed: bool)
      requires Valid()
      modifies this
      ensures Valid() && history == old(history) + [Op.Unregister(connection, name)]
      ensures removed <==> Since(old(history), connection, name).Some?
    {
      AfterSnoc(history, Op.Unregister(connection, name));
      ProvidesIffCurrent(history, connection, name);
      hide After, Since, Connections, Without, Minus, Kept;
      removed := false;
      if name in providersByTool {
        var providers := providersByTool[name];
        var kept := Without(providers, connection);
        WithoutShorter(providers, connection);
        removed := |kept| != |providers|;
        providersByTool := Kept(providersByTool, name, kept);
      } else {
        NobodyProvides(connection);
      }
      if removed {
        RemoveToolFromConnection(connection, name);
      }
      history := history + [Op.Unregister(connection, name)];
    }

    method RemoveToolFromConnection(connection: string, name: string)
      modifies this`toolsByConnection
      ensures toolsByConnection ==
        if connection in old(toolsByConnection)
        then Kept(old(toolsByConnection), connection, Minus(old(toolsByConnection)[connection], name))
        else old(toolsByConnection)
    {
      if connection in toolsByConnection {
        toolsByConnection := Kept(toolsByConnection, connection, Minus(toolsByConnection[connection], name));
      }
    }

    /** Returns exactly the tools the connection currently had, oldest first. */
    method UnregisterConnection(connection: string) returns (names: seq<string>)
      requires Valid()
      modifies this
      ensures Valid() && history == old(history) + [Op.Disconnect(connection)]
      ensures ByAge(names, ToolAges(old(history), connection))
    {
      hide After, ByAge, Without, Kept, Dropped;
      AfterSnoc(history, Op.Disconnect(connection));
      ToolsAreCurrent(history, connection);
      NothingDropped(providersByTool, connection);
      history := history + [Op.Disconnect(connection)];
      names := Get(toolsByConnection, connection);
      if connection !in toolsByConnection {
        assert toolsByConnection - {connection} == toolsByConnection;
        return;
      }
      toolsByConnection := toolsByConnection - {connection};
      for i := 0 to |names|
        invariant providersByTool == Dropped(old(providersByTool), connection, names[..i])
        invariant toolsByConnection == old(toolsByConnection) - {connection}
        invariant history == old(history) + [Op.Disconnect(connection)]
      {
        DroppedOneMore(old(providersByTool), connection, names, i);
        if names[i] in providersByTool {
          providersByTool := Kept(providersByTool, names[i], Without(providersByTool[names[i]], connection));
        }
      }
      assert names[..|names|] == names;
    }

    /** The provider whose current registration is oldest, with the
        specification it gave last; none exactly when nobody is registered. */
    method ResolveProvider(name: string) returns (p: Option<Provider>)
      requires Valid()
      ensures p == Resolve(View(), name)
      ensures if p.Some? then
          IsOldest(history, p.value.connection, name) && Latest(history, p.value.connection, name) == Some(p.value.tool)
        else forall connection :: Since(history, connection, name).None?
    {
      OldestWins(history, name);
      hide After, Since, Latest, IsOldest;
      if name !in providersByTool || providersByTool[name] == [] {
        return None;
      }
      return Some(providersByTool[name][0]);
    }
  }

  lemma NothingDropped(providers: map<string, seq<Provider>>, connection: string)
    ensures Dropped(providers, connection, []) == providers
  {
  }

  lemma DroppedOneMore(providers: map<string, seq<Provider>>, connection: string, names: seq<string>, i: nat)
    requires i < |names|
    ensures var m := Dropped(providers, connection, names[..i]);
      Dropped(providers, connection, names[..i + 1])
      == if names[i] in m then Kept(m, names[i], Without(m[names[i]], connection)) else m
  {
    hide Kept, Without;
    assert names[..i + 1][..i] == names[..i];
  }

  lemma NobodyProvides(connection: string)
    ensures connection !in Connections([])
  {
  }

  lemma ProvidesIffCurrent(ops: seq<Op>, connection: string, name: string)
    ensures Provides(After(ops), connection, name) <==> Since(ops, connection, name).Some?
  {
    hide After, Since, Rising;
    ExistingAreCurrent(ops, name);
    assert ConnectionAges(ops, name)(connection) == Since(ops, connection, name);
  }

  lemma {:induction false} WithoutShorter(ps: seq<Provider>, connection: string)
    ensures |Without(ps, connection)| <= |ps|
    ensures |Without(ps, connection)| == |ps| <==> connection !in Connections(ps)
  {
    if ps == [] {
      assert Connections(ps) == [];
    } else {
      WithoutShorter(ps[1..], connection);
      assert ps == [ps[0]] + ps[1..];
      ConnectionsCons(ps[0], ps[1..]);
    }
  }
}
