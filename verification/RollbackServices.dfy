/** stopRollbackServices (apps/updater/src/update-service.ts) over the containers it stops. */
module RollbackServices {
  import opened ProjectionRollback

  datatype Container = Running | Exited | Missing

  datatype StopResult = Ok | NoSuchContainer(name: Service) | StopError

  class Docker {
    var api: Container
    var admin: Container
    var deno: Container

    function Of(s: Service): Container
      reads this
    {
      match s
      case Api => api
      case Admin => admin
      case Deno => deno
    }

    /** Nothing that was not running is running now. */
    twostate predicate OnlyStops()
      reads this
    {
      forall s: Service :: Of(s) == Running ==> old(Of(s)) == Running
    }

    /** `docker stop`: it may fail for any reason at any point; it complains about a missing container
        only if there is one among those named. */
    method Stop(names: seq<Service>) returns (r: StopResult)
      modifies this
      ensures OnlyStops()
      ensures forall s: Service :: Of(s) == Missing <==> old(Of(s)) == Missing
      ensures r.Ok? ==> forall i :: 0 <= i < |names| ==> Of(names[i]) != Running
      ensures r.NoSuchContainer? ==> r.name in names && Of(r.name) == Missing
    {
      for i := 0 to |names|
        invariant OnlyStops()
        invariant forall s: Service :: Of(s) == Missing <==> old(Of(s)) == Missing
        invariant forall j :: 0 <= j < i ==> Of(names[j]) != Running
      {
        if * { return StopError; }
        match names[i] {
          case Api => if api == Missing { return NoSuchContainer(Api); } api := Exited;
          case Admin => if admin == Missing { return NoSuchContainer(Admin); } admin := Exited;
          case Deno => if deno == Missing { return NoSuchContainer(Deno); } deno := Exited;
        }
      }
      return Ok;
    }

    /** Stops all three at once; if one of them is missing, each by itself, where only a real error counts.
        A normal return leaves every service stopped or missing. */
    method StopRollbackServices() returns (threw: bool)
      modifies this
      ensures OnlyStops()
      ensures !threw ==> forall s: Service :: Of(s) != Running
    {
      var names := [Api, Admin, Deno];
      assert names[0] == Api && names[1] == Admin && names[2] == Deno;
      var all := Stop(names);
      if all.Ok? { return false; }
      if all.StopError? { return true; }
      var failed := false;
      for i := 0 to |names|
        invariant OnlyStops()
        invariant !failed ==> forall j :: 0 <= j < i ==> Of(names[j]) != Running
      {
        var one := Stop([names[i]]);
        if one.StopError? || (one.NoSuchContainer? && one.name != names[i]) { failed := true; }
        assert one.Ok? ==> Of([names[i]][0]) != Running;
      }
      return failed;
    }
  }
}
