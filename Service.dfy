/**
 * The coordinator service: the in-memory list of backend coordinators and
 * the rotation cursor, with the reload, admission, selection and removal
 * operations. Results of the database mapper and of the liveness probe are
 * passed in as parameters; the calls run one at a time.
 */
module Service {
  import opened Wrappers
  import opened Coordinators
  import opened Liveness
  import opened Rotation
  import opened Registry

  /** The runtime exceptions the service throws. */
  datatype ServiceError =
    | NoActiveCoordinator                       // selection over an empty list
    | Inactive(host: string, port: int)         // admission of a node that is not live
    | RemovalFailed(host: string, port: int)    // the store deleted no row

  class CoordinatorService {
    /** The coordinators requests are routed to, in selection order. */
    var coordinators: seq<Coordinator>
    /** The rotation cursor; it may exceed the list size after the list shrinks. */
    var index: nat

    constructor ()
      ensures coordinators == [] && index == 0
    {
      coordinators := [];
      index := 0;
    }

    /**
     * Replaces the list with the store's active coordinators (`None` when the
     * store returns null). The cursor is left as it was.
     */
    method ReloadCoordinators(active: Option<seq<Coordinator>>)
      modifies this`coordinators
      ensures coordinators == if active.Some? then active.value else []
      ensures index == old(index)
    {
      coordinators := [];
      if active.Some? && |active.value| > 0 {
        coordinators := coordinators + active.value;
      }
    }

    /**
     * Admits (host, port) after the liveness probe answered `probe`; `inserted`
     * is the row count the store reports for the insert. An inactive node is
     * refused with an error; a live one is appended only when the store
     * inserted a row, and otherwise the list is returned unchanged.
     */
    method AddCoordinator(host: string, port: int, probe: ProbeOutcome, inserted: int)
      returns (r: Result<seq<Coordinator>, ServiceError>)
      modifies this`coordinators
      ensures !IsActive(probe) ==>
        r == Failure(Inactive(host, port)) && coordinators == old(coordinators)
      ensures IsActive(probe) && inserted > 0 ==>
        coordinators == old(coordinators) + [Coordinator(host, port, true)]
      ensures IsActive(probe) && inserted <= 0 ==> coordinators == old(coordinators)
      ensures IsActive(probe) ==> r == Success(coordinators)
      ensures index == old(index)
    {
      var live := IsActive(probe);
      if live {
        var coordinator := Coordinator(host, port, live);
        if inserted > 0 {
          coordinators := coordinators + [coordinator];
        }
        r := Success(coordinators);
      } else {
        r := Failure(Inactive(host, port));
      }
    }

    /**
     * Picks the next coordinator and returns its base URL. Below the list
     * size the cursor names the pick and is incremented; at or beyond it,
     * the first coordinator is picked and the cursor reset to 0.
     */
    method FetchCoordinatorUrl() returns (r: Result<string, ServiceError>)
      modifies this`index
      ensures coordinators == old(coordinators)
      ensures coordinators == [] ==> r == Failure(NoActiveCoordinator) && index == old(index)
      ensures coordinators != [] && old(index) < |coordinators| ==>
        r == Success(Url(coordinators[old(index)])) && index == old(index) + 1
      ensures coordinators != [] && old(index) >= |coordinators| ==>
        r == Success(Url(coordinators[0])) && index == 0
      ensures coordinators != [] ==>
        var p := Step(|coordinators|, old(index));
        r == Success(Url(coordinators[p.at])) && index == p.cursor && index <= |coordinators|
    {
      if |coordinators| == 0 {
        return Failure(NoActiveCoordinator);
      }
      var i := index;
      var coordinator: Coordinator;
      if i >= |coordinators| {
        coordinator := coordinators[0];
        index := 0;
      } else {
        coordinator := coordinators[i];
        index := index + 1;
      }
      r := Success(Url(coordinator));
    }

    /**
     * Deletes (host, port) from the store, which reports `removed` rows. With
     * no row deleted the call fails and the list is kept; otherwise the first
     * record with that key, if any, leaves the list.
     */
    method RemoveCoordinator(host: string, port: int, removed: int)
      returns (r: Result<(), ServiceError>)
      modifies this`coordinators
      ensures removed > 0 ==>
        r == Success(()) && coordinators == RemoveFirst(old(coordinators), host, port)
      ensures removed <= 0 ==>
        r == Failure(RemovalFailed(host, port)) && coordinators == old(coordinators)
      ensures index == old(index)
    {
      if removed > 0 {
        coordinators := RemoveFirst(coordinators, host, port);
        r := Success(());
      } else {
        r := Failure(RemovalFailed(host, port));
      }
    }
  }

  /**
   * Three coordinators loaded from the store and six selections from a fresh
   * service: a, b, c, then a twice (the reset), then b.
   */
  method RotationScenario() returns (urls: seq<string>)
    ensures urls == ["http://a:1", "http://b:2", "http://c:3", "http://a:1", "http://a:1", "http://b:2"]
  {
    var a, b, c := Coordinator("a", 1, true), Coordinator("b", 2, true), Coordinator("c", 3, true);
    var service := new CoordinatorService();
    service.ReloadCoordinators(Some([a, b, c]));
    var r1 := service.FetchCoordinatorUrl();
    var r2 := service.FetchCoordinatorUrl();
    var r3 := service.FetchCoordinatorUrl();
    assert service.index == 3;
    var r4 := service.FetchCoordinatorUrl();
    assert service.index == 0;
    var r5 := service.FetchCoordinatorUrl();
    var r6 := service.FetchCoordinatorUrl();
    urls := [r1.value, r2.value, r3.value, r4.value, r5.value, r6.value];
    assert Url(a) == "http://a:1" && Url(b) == "http://b:2" && Url(c) == "http://c:3";
  }

  /**
   * Removal whose store delete affected no row: the call fails and the node
   * stays in the list.
   */
  method FailedRemovalScenario() returns (r: Result<(), ServiceError>, kept: seq<Coordinator>)
    ensures r == Failure(RemovalFailed("b", 2))
    ensures kept == [Coordinator("a", 1, true), Coordinator("b", 2, true)]
  {
    var service := new CoordinatorService();
    service.ReloadCoordinators(Some([Coordinator("a", 1, true), Coordinator("b", 2, true)]));
    r := service.RemoveCoordinator("b", 2, 0);
    kept := service.coordinators;
  }
}
