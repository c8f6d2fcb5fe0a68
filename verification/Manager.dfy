/** The service manager: start in dependency order, stop in reverse. */
module Manager {
  import opened Graph
  import opened StartOrder

  /** The moment a stop flag is set: whose, and which supervision tasks are still alive. */
  datatype Stop = Stop(id: string, live: set<string>)

  /** `y` depends on `x`, directly or through others. */
  ghost predicate Dependent(services: seq<ServiceConfig>, y: string, x: string) {
    y != x && Reach(DependsOn(services), y, x)
  }

  /** The flag was set only after the tasks of all dependents had ended. */
  ghost predicate Orderly(services: seq<ServiceConfig>, stop: Stop) {
    forall y | Dependent(services, y, stop.id) :: y !in stop.live
  }

  class ServiceManager {
    var handles: seq<string>
    var live: set<string>
    var stops: seq<Stop>

    constructor ()
      ensures handles == [] && live == {} && stops == []
    {
      handles, live, stops := [], {}, [];
    }

    /** Spawn every service's task in start order, or nothing at all. */
    method StartAll(services: seq<ServiceConfig>) returns (r: Outcome)
      requires handles == [] && live == {}
      modifies this
      ensures r.Ok? <==> DistinctIds(services) && AllKnown(services) && Acyclic(DependsOn(services))
      ensures r.Ok? ==> IsStartOrder(services, handles) && live == Elements(handles)
      ensures r.Err? ==> handles == [] && live == {}
      ensures stops == old(stops)
    {
      r := StartOrder.StartOrder(services);
      if r.Ok? {
        Spawn(r.order);
      }
    }

    method Spawn(order: seq<string>)
      requires handles == [] && live == {}
      modifies this`handles, this`live
      ensures handles == order && live == Elements(order)
    {
      var i := 0;
      while i < |order|
        invariant 0 <= i <= |order| && handles == order[..i] && live == Elements(order[..i])
      {
        handles := handles + [order[i]];
        live := live + {order[i]};
        i := i + 1;
      }
    }

    /**
     Pop the handles; set the flag, then wait for the task to drain within its grace or
     abort it. Tasks may also end on their own at any moment.
     */
    method StopAll(ghost services: seq<ServiceConfig>)
      requires IsStartOrder(services, handles) && live == Elements(handles) && stops == []
      modifies this
      ensures handles == [] && live == {} && |stops| == |old(handles)|
      ensures forall i, j | 0 <= i < |stops| && i + j == |stops| - 1 :: stops[i].id == old(handles)[j]
      ensures forall i | 0 <= i < |stops| :: Orderly(services, stops[i])
    {
      hide IsStartOrder, Orderly;
      ghost var order := handles;
      while handles != []
        invariant handles <= order && live <= Elements(handles)
        invariant |stops| + |handles| == |order|
        invariant forall i, j | 0 <= i < |stops| && i + j == |order| - 1 :: stops[i].id == order[j]
        invariant forall i | 0 <= i < |stops| :: Orderly(services, stops[i])
      {
        StopLast(services, order);
      }
    }

    method StopLast(ghost services: seq<ServiceConfig>, ghost order: seq<string>)
      requires IsStartOrder(services, order) && handles <= order && handles != [] && live <= Elements(handles)
      modifies this
      ensures handles == old(handles)[..|old(handles)|-1] && live <= Elements(handles)
      ensures |stops| == |old(stops)| + 1 && stops[..|old(stops)|] == old(stops)
      ensures stops[|old(stops)|].id == old(handles)[|old(handles)|-1] && Orderly(services, stops[|old(stops)|])
    {
      var n := |handles| - 1;
      var id := handles[n];
      var gone :| gone <= live;
      live := live - gone;
      DependentsLater(services, order, n, live);
      stops := stops + [Stop(id, live)];
      assert handles == handles[..n] + [id];
      handles := handles[..n];
      live := live - {id};
    }
  }

  /** Everything that depends on position `n` of a start order comes after it. */
  lemma DependentsLater(services: seq<ServiceConfig>, order: seq<string>, n: nat, live: set<string>)
    requires IsStartOrder(services, order) && n < |order| && live <= Elements(order[..n+1])
    ensures Orderly(services, Stop(order[n], live))
  {
    forall y | Dependent(services, y, order[n])
      ensures y !in live
    {
      if y in live {
        var a :| 0 <= a < n + 1 && order[..n+1][a] == y;
        var p :| PathFrom(DependsOn(services), p, y, order[n]);
        PathGoesEarlier(DependsOn(services), order, p, a, n);
      }
    }
  }
}
