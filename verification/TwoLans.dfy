/**
The smallest realistic network that does not forget: two nodes share two LANs,
and a third node sits on one of them. When the third falls silent, the two keep
telling each other about it.
 */
module TwoLans {
  import opened Types
  import opened AdapterManagers
  import opened Routes
  import opened Network
  import opened NetworkBounds
  import opened NetworkHandlers
  import opened Walks
  import opened Traces
  import opened Expiry
  import opened AnnouncementSizes
  import opened Forgetting

  /** An enabled adapter with one address. */
  function Card(mac: string, a: Address): Adapter {
    Adapter(mac, mac, 0, mac, mac, false, true, [(a, 0)], 0, 1500)
  }

  function CardsOfX(): AdapterTable { map["x1" := Card("x1", 1), "x2" := Card("x2", 4)] }

  function CardsOfY(): AdapterTable { map["y1" := Card("y1", 2), "y2" := Card("y2", 5)] }

  function CardsOfD(): AdapterTable { map["d1" := Card("d1", 3)] }

  /** x, y and d share one LAN (addresses 1, 2 and 3), x and y another (4 and 5). */
  function Lans(): Topology {
    Topology(
      map["x" := NodeConfig(1, CardsOfX()), "y" := NodeConfig(2, CardsOfY()), "d" := NodeConfig(3, CardsOfD())],
      {(1, 2), (2, 1), (1, 3), (3, 1), (2, 3), (3, 2), (4, 5), (5, 4)})
  }

  const SILENT: NodeId := NodeId(3, 3)

  /** Whose card has the address, and which. */
  function CardAt(a: Address): (string, string) {
    if a == 1 then ("x", "x1") else if a == 2 then ("y", "y1") else if a == 3 then ("d", "d1")
    else if a == 4 then ("x", "x2") else ("y", "y2")
  }

  lemma CarriedAt(n: string, mac: string, a: Address)
    requires n in Lans().nodes && CarriedBy(Lans().nodes[n].adapters, mac, a)
    ensures CardAt(a) == (n, mac) && 1 <= a <= 5 && IsClient(Lans(), n, mac) && AddressOf(Lans(), n, mac) == a
  {
    var adapters := Lans().nodes[n].adapters;
    assert adapters[mac].addresses == [(adapters[mac].addresses[0].0, 0)];
  }

  lemma GuidIsMac(n: string, mac: string)
    requires n in Lans().nodes && mac in Lans().nodes[n].adapters
    ensures Lans().nodes[n].adapters[mac].guid == mac
  {}

  lemma LansAreUnique()
    ensures UniqueAddresses(Lans()) && UniqueGuids(Lans())
  {
    hide Lans, CarriedBy, HasClient, CardAt;
    forall n, mac, n', mac', a
      | && n in Lans().nodes && n' in Lans().nodes
        && CarriedBy(Lans().nodes[n].adapters, mac, a) && CarriedBy(Lans().nodes[n'].adapters, mac', a)
      ensures n == n' && mac == mac'
    {
      CarriedAt(n, mac, a);
      CarriedAt(n', mac', a);
    }
    forall n, mac, mac'
      | && n in Lans().nodes && mac in Lans().nodes[n].adapters && mac' in Lans().nodes[n].adapters
        && Lans().nodes[n].adapters[mac].guid == Lans().nodes[n].adapters[mac'].guid
      ensures mac == mac'
    {
      GuidIsMac(n, mac);
      GuidIsMac(n, mac');
    }
  }

  lemma LansOwners()
    ensures Owns(Lans(), "x", 1) && Owns(Lans(), "x", 4) && Owns(Lans(), "y", 2) && Owns(Lans(), "y", 5)
    ensures Owns(Lans(), "d", 3) && OwnedBy(Lans(), 3, 3)
  {
    assert IsClient(Lans(), "x", "x1") && AddressOf(Lans(), "x", "x1") == 1;
    assert IsClient(Lans(), "x", "x2") && AddressOf(Lans(), "x", "x2") == 4;
    assert IsClient(Lans(), "y", "y1") && AddressOf(Lans(), "y", "y1") == 2;
    assert IsClient(Lans(), "y", "y2") && AddressOf(Lans(), "y", "y2") == 5;
    assert IsClient(Lans(), "d", "d1") && AddressOf(Lans(), "d", "d1") == 3;
  }

  /** From x over the first LAN to y, and over the second back to x. */
  lemma LansCycle()
    ensures IsCycle(Lans(), ["x", "y"], [Hop(1, 2), Hop(5, 4)])
  {
    LansOwners();
    assert (2, 1) in Lans().links && (4, 5) in Lans().links;
    hide Lans, Owns;
    var (nodes, hops) := (["x", "y"], [Hop(1, 2), Hop(5, 4)]);
    assert CycleHop(Lans(), "x", Hop(1, 2), "y", Hop(5, 4)) && CycleHop(Lans(), "y", Hop(5, 4), "x", Hop(1, 2));
    hide CycleHop;
    assert CycleHopAt(Lans(), nodes, hops, 0) && CycleHopAt(Lans(), nodes, hops, 1);
  }

  /** From y over the second LAN to x, and from there to d. */
  lemma LansWalk()
    ensures HasWalk(Lans(), "y", HopRoute(SILENT, Hop(5, 4)))
  {
    LansOwners();
    assert (3, 1) in Lans().links && (4, 5) in Lans().links;
    hide Lans, Owns, OwnedBy;
    var walk := [Hop(5, 4), Hop(1, 3)];
    assert IsWalk(Lans(), "x", [Hop(1, 3)]);
    assert walk[1..] == [Hop(1, 3)];
    assert Leads(Lans(), "y", walk, HopRoute(SILENT, Hop(5, 4)));
  }

  lemma LansLinger()
    ensures Lingers(Lans(), SILENT)
  {
    hide Lans, HasWalk, IsCycle;
    LansCycle();
    LansWalk();
    var (nodes, hops) := (["x", "y"], [Hop(1, 2), Hop(5, 4)]);
    assert HasWalk(Lans(), nodes[1], HopRoute(SILENT, hops[1]));
    assert LingerCycle(Lans(), SILENT, nodes, hops);
  }

  lemma LansAreSmall()
    ensures SizeBound(Lans()) <= RECEIVE_SIZE
  {
    hide IsClient, AddressOf;
    forall a | a in ClientAddresses(Lans()) ensures a in {1, 2, 3, 4, 5} {
      var n, mac :| n in Lans().nodes && mac in Lans().nodes[n].adapters && IsClient(Lans(), n, mac)
        && AddressOf(Lans(), n, mac) == a;
      ClientCarries(n, mac);
      CarriedAt(n, mac, a);
    }
    SubsetCard(ClientAddresses(Lans()), {1, 2, 3, 4, 5});
    assert |Lans().links| == 8;
    assert RouteBound(Lans()) <= 40;
    SizeGrows(RouteBound(Lans()), 40);
  }

  lemma ClientCarries(n: string, mac: string)
    requires IsClient(Lans(), n, mac)
    ensures CarriedBy(Lans().nodes[n].adapters, mac, AddressOf(Lans(), n, mac))
  {
    assert Lans().nodes[n].adapters[mac].addresses[0].0 == AddressOf(Lans(), n, mac);
  }

  lemma SizeGrows(a: nat, b: nat)
    requires a <= b
    ensures a * (8 + 2 * a) <= b * (8 + 2 * b)
  {}

  /**
  However many epochs of silence pass, this run ends with a route to d online
  at some node, and no announcement in it is too large to be heard.
   */
  lemma LansNeverForget(k: nat)
    returns (states: seq<State>, steps: seq<NetStep>, start: nat, epochs: seq<Epoch>)
    ensures SilentRun(Lans(), SILENT, states, steps, start, epochs) && |epochs| == k
    ensures !AllOffline(Lans(), states[|steps|], SILENT) && Audible(states)
    ensures !ForgottenAfter(Lans(), SILENT, k)
  {
    LansAreUnique();
    LansLinger();
    LansAreSmall();
    hide Lans, UniqueAddresses, UniqueGuids, Lingers, SizeBound, AllOffline, Audible, Trace, Epochs, Silent;
    states, steps, start, epochs := HeardLingeringRun(Lans(), SILENT, k);
  }
}
