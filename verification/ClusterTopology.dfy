/** The topology of a Neo4jEnterpriseCluster: its admission rules, the mode each server starts in and the system-primary floor. */
module ClusterTopology {
  import opened Options

  datatype Mode = Any | Primary | Secondary

  /** A role hint for the server with this index. */
  datatype Hint = Hint(serverIndex: int, mode: Mode)

  /** An absent serverModeConstraint means NONE, which is `Any` here. */
  datatype Topology = Topology(
    servers: int, minSystemPrimaries: Option<int>, serverModeConstraint: Mode, serverRoles: Option<seq<Hint>>)
  {
    function Roles(): seq<Hint> {
      if serverRoles.Some? then serverRoles.value else []
    }
  }

  /** The schema bounds, the list-map key and the cross-field rules. */
  predicate Accepted(t: Topology) {
    && 2 <= t.servers <= 100
    && (t.minSystemPrimaries.Some? ==> 2 <= t.minSystemPrimaries.value <= t.servers)
    && (t.serverRoles.Some? ==>
          var roles := t.serverRoles.value;
          && |roles| <= 100
          && (forall i :: 0 <= i < |roles| ==> 0 <= roles[i].serverIndex < t.servers)
          && (forall i, k :: 0 <= i < k < |roles| ==> roles[i].serverIndex != roles[k].serverIndex)
          && !(|roles| == t.servers && forall i :: 0 <= i < |roles| ==> roles[i].mode == Secondary))
  }

  /** The variable of the startup script after its tests of SERVER_INDEX, one per hint in order. */
  function Scripted(roles: seq<Hint>, server: int): Mode {
    if roles == [] then Any
    else
      var last := roles[|roles| - 1];
      if last.serverIndex == server then last.mode else Scripted(roles[..|roles| - 1], server)
  }

  /** The mode constraint a server starts with: any hint at all turns the global constraint off. */
  function EffectiveMode(t: Topology, server: int): Mode {
    if t.Roles() != [] then Scripted(t.Roles(), server) else t.serverModeConstraint
  }

  predicate HostsPrimaries(t: Topology, server: int) {
    0 <= server < t.servers && EffectiveMode(t, server) != Secondary
  }

  predicate Hinted(roles: seq<Hint>, server: int) {
    exists i :: 0 <= i < |roles| && roles[i].serverIndex == server
  }

  /** A hint pins the server to secondaries. */
  predicate Pinned(roles: seq<Hint>, server: int) {
    exists i :: 0 <= i < |roles| && roles[i] == Hint(server, Secondary)
  }

  function Indices(roles: seq<Hint>): set<int> {
    if roles == [] then {} else Indices(roles[..|roles| - 1]) + {roles[|roles| - 1].serverIndex}
  }

  function Range(n: nat): set<int> {
    if n == 0 then {} else Range(n - 1) + {n - 1}
  }

  lemma {:induction false} RangeIs(n: nat)
    ensures |Range(n)| == n && forall i :: i in Range(n) <==> 0 <= i < n
  {
    if n > 0 { RangeIs(n - 1); }
  }

  lemma {:induction false} IndicesAre(roles: seq<Hint>)
    ensures forall x :: x in Indices(roles) <==> exists i :: 0 <= i < |roles| && roles[i].serverIndex == x
    decreases |roles|
  {
    if roles != [] {
      var front := roles[..|roles| - 1];
      IndicesAre(front);
      assert forall i :: 0 <= i < |front| ==> front[i] == roles[i];
    }
  }

  lemma {:induction false} DistinctIndices(roles: seq<Hint>)
    requires forall i, k :: 0 <= i < k < |roles| ==> roles[i].serverIndex != roles[k].serverIndex
    ensures |Indices(roles)| == |roles|
    decreases |roles|
  {
    if roles != [] {
      DistinctIndices(roles[..|roles| - 1]);
      IndicesAre(roles[..|roles| - 1]);
    }
  }

  /** When every server is pinned, every server is hinted and every hint says SECONDARY. */
  lemma AllPinned(roles: seq<Hint>, servers: nat)
    requires forall i :: 0 <= i < |roles| ==> 0 <= roles[i].serverIndex < servers
    requires forall i, k :: 0 <= i < k < |roles| ==> roles[i].serverIndex != roles[k].serverIndex
    requires forall server :: 0 <= server < servers ==> Pinned(roles, server)
    ensures |roles| == servers && forall i :: 0 <= i < |roles| ==> roles[i].mode == Secondary
  {
    RangeIs(servers);
    IndicesAre(roles);
    DistinctIndices(roles);
    forall server | server in Range(servers) ensures server in Indices(roles) {
      assert Pinned(roles, server);
    }
    forall x | x in Indices(roles) ensures x in Range(servers) {
      var i :| 0 <= i < |roles| && roles[i].serverIndex == x;
    }
    assert Range(servers) == Indices(roles);
    forall i | 0 <= i < |roles| ensures roles[i].mode == Secondary {
      assert Pinned(roles, roles[i].serverIndex);
    }
  }

  /** With one hint per server at most, the script gives a server the mode of its hint, and no constraint without one. */
  lemma {:induction false} ScriptedIs(roles: seq<Hint>, server: int)
    requires forall i, k :: 0 <= i < k < |roles| ==> roles[i].serverIndex != roles[k].serverIndex
    ensures forall i :: 0 <= i < |roles| && roles[i].serverIndex == server ==> Scripted(roles, server) == roles[i].mode
    ensures !Hinted(roles, server) ==> Scripted(roles, server) == Any
    decreases |roles|
  {
    if roles != [] {
      var front := roles[..|roles| - 1];
      ScriptedIs(front, server);
      assert forall i :: 0 <= i < |front| ==> front[i] == roles[i];
      assert Hinted(front, server) ==> Hinted(roles, server);
    }
  }

  lemma SecondaryIffPinned(roles: seq<Hint>, server: int)
    requires forall i, k :: 0 <= i < k < |roles| ==> roles[i].serverIndex != roles[k].serverIndex
    ensures Scripted(roles, server) == Secondary <==> Pinned(roles, server)
  {
    ScriptedIs(roles, server);
  }

  /**
    An accepted topology leaves a server that may host primaries exactly when it
    has hints or does not constrain every server to SECONDARY.
   */
  lemma PrimariesIff(t: Topology)
    requires Accepted(t)
    ensures (exists server :: HostsPrimaries(t, server)) <==> !(t.Roles() == [] && t.serverModeConstraint == Secondary)
  {
    if t.Roles() == [] {
      assert t.serverModeConstraint != Secondary ==> HostsPrimaries(t, 0);
    } else {
      HintsLeaveAPrimary(t);
    }
  }

  /** The rule only forbids listing all servers as SECONDARY; that is enough, because no index may occur twice. */
  lemma HintsLeaveAPrimary(t: Topology)
    requires Accepted(t) && t.Roles() != []
    ensures exists server :: HostsPrimaries(t, server)
  {
    var roles := t.Roles();
    forall server ensures Scripted(roles, server) == Secondary <==> Pinned(roles, server) {
      SecondaryIffPinned(roles, server);
    }
    if forall server :: 0 <= server < t.servers ==> Pinned(roles, server) {
      AllPinned(roles, t.servers);
    } else {
      var server :| 0 <= server < t.servers && !Pinned(roles, server);
      assert HostsPrimaries(t, server);
    }
  }

  /** Three servers, serverModeConstraint SECONDARY, no hints: accepted, and no server hosts primaries. */
  lemma NoPrimariesAccepted()
    ensures var t := Topology(3, None, Secondary, None); Accepted(t) && forall server :: !HostsPrimaries(t, server)
  {
    PrimariesIff(Topology(3, None, Secondary, None));
  }

  /** What the documentation promises: a hint overrides the global constraint for its own server only. */
  function DocumentedMode(t: Topology, server: int): Mode {
    if Hinted(t.Roles(), server) then Scripted(t.Roles(), server) else t.serverModeConstraint
  }

  /**
    Every server starts as documented exactly when there are no hints, or no
    global constraint for them to turn off, or a hint for every server.
   */
  lemma DocumentedIff(t: Topology)
    requires Accepted(t)
    ensures (forall server :: 0 <= server < t.servers ==> EffectiveMode(t, server) == DocumentedMode(t, server))
       <==> t.Roles() == [] || t.serverModeConstraint == Any || |t.Roles()| == t.servers
  {
    var roles := t.Roles();
    AllHintedIff(roles, t.servers);
    forall server ensures !Hinted(roles, server) ==> Scripted(roles, server) == Any {
      ScriptedIs(roles, server);
    }
    if roles != [] && |roles| != t.servers {
      var server :| 0 <= server < t.servers && !Hinted(roles, server);
      assert EffectiveMode(t, server) == Any && DocumentedMode(t, server) == t.serverModeConstraint;
    }
  }

  /** Three servers, serverModeConstraint PRIMARY, a hint for server 0: server 1 starts without the constraint. */
  lemma HintTurnsConstraintOff()
    ensures var t := Topology(3, None, Primary, Some([Hint(0, Secondary)]));
      Accepted(t) && EffectiveMode(t, 1) == Any && DocumentedMode(t, 1) == Primary
  {
    var roles := [Hint(0, Secondary)];
    ScriptedIs(roles, 1);
    assert !Hinted(roles, 1);
  }

  lemma AllHintedIff(roles: seq<Hint>, servers: nat)
    requires forall i :: 0 <= i < |roles| ==> 0 <= roles[i].serverIndex < servers
    requires forall i, k :: 0 <= i < k < |roles| ==> roles[i].serverIndex != roles[k].serverIndex
    ensures |roles| == servers <==> forall server :: 0 <= server < servers ==> Hinted(roles, server)
  {
    RangeIs(servers);
    IndicesAre(roles);
    DistinctIndices(roles);
    forall x ensures x in Indices(roles) <==> Hinted(roles, x) {}
    assert Indices(roles) <= Range(servers) by {
      forall x | x in Indices(roles) ensures x in Range(servers) {
        assert Hinted(roles, x);
      }
    }
    SameSizeIff(Indices(roles), Range(servers));
    if Range(servers) <= Indices(roles) {
      forall server | 0 <= server < servers ensures Hinted(roles, server) {
        assert server in Range(servers);
      }
    }
    if forall server :: 0 <= server < servers ==> Hinted(roles, server) {
      forall x | x in Range(servers) ensures x in Indices(roles) {
        assert Hinted(roles, x);
      }
    }
  }

  lemma SameSizeIff(a: set<int>, b: set<int>)
    requires a <= b
    ensures |a| == |b| <==> b <= a
  {
    assert a + (b - a) == b;
    assert b <= a <==> b - a == {};
  }

  function Min(a: int, b: int): int {
    if a < b then a else b
  }

  function Max(a: int, b: int): int {
    if a > b then a else b
  }

  function EffectiveMinSystemPrimaries(t: Topology): int {
    var servers := Max(t.servers, 2);
    if t.minSystemPrimaries.Some? then Min(Max(t.minSystemPrimaries.value, 2), servers) else Min(servers, 3)
  }

  /** The floor is between 2 and the number of servers, is an accepted explicit value, and never sinks as servers are added. */
  lemma FloorProperties(t: Topology, servers: int)
    requires Accepted(t) && t.servers <= servers
    ensures 2 <= EffectiveMinSystemPrimaries(t) <= t.servers
    ensures t.minSystemPrimaries.Some? ==> EffectiveMinSystemPrimaries(t) == t.minSystemPrimaries.value
    ensures EffectiveMinSystemPrimaries(t) <= EffectiveMinSystemPrimaries(t.(servers := servers))
  {
  }

  /** Unset, the floor is 2 for two servers and 3 for any larger cluster; a set value counts as it is. */
  lemma FloorIs(t: Topology)
    requires Accepted(t)
    ensures t.minSystemPrimaries == None ==> EffectiveMinSystemPrimaries(t) == if t.servers == 2 then 2 else 3
    ensures t.minSystemPrimaries.Some? ==> EffectiveMinSystemPrimaries(t) == t.minSystemPrimaries.value
  {
  }

  /** The smallest and the largest clusters, and the values that are refused for them. */
  lemma AcceptedBounds(servers: int, floor: int, index: int, mode: Mode)
    ensures Accepted(Topology(servers, None, mode, None)) <==> 2 <= servers <= 100
    ensures 2 <= servers <= 100 ==>
      (Accepted(Topology(servers, Some(floor), mode, None)) <==> 2 <= floor <= servers)
    ensures 2 <= servers <= 100 ==>
      (Accepted(Topology(servers, None, mode, Some([Hint(index, Secondary)]))) <==> 0 <= index < servers)
    ensures 2 <= servers <= 100 ==> !Accepted(Topology(servers, None, mode, Some([Hint(0, mode), Hint(0, mode)])))
    ensures !Accepted(Topology(2, None, mode, Some([Hint(0, Secondary), Hint(1, Secondary)])))
  {
    var all, twice := [Hint(0, Secondary), Hint(1, Secondary)], [Hint(0, mode), Hint(0, mode)];
    assert |all| == 2 && forall i :: 0 <= i < |all| ==> all[i].mode == Secondary;
    assert twice[0].serverIndex == twice[1].serverIndex;
    assert [Hint(index, Secondary)][0].serverIndex == index;
  }
}
