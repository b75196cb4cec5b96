/**
 * The service records of the live-departures response and the destination
 * filter of `get_services`.
 */
module Services {
  import opened Wrappers

  /**
   * One element of the response's `services` list.  `platform`, `arrives`
   * and `departs` may be JSON null; the other fields are strings.
   */
  datatype Service = Service(
    platform: Option<string>,
    arrives: Option<string>,
    departs: Option<string>,
    expected: string,
    destination: string,
    origin: string)

  /** Python truthiness of a value that is a string or None: None and "" are false. */
  predicate Truthy(o: Option<string>) {
    o.Some? && o.value != ""
  }

  /** `[s for s in services if s["destination"] == destination]` */
  function Matching(services: seq<Service>, destination: string): (r: seq<Service>)
    ensures |r| <= |services|
    ensures forall i :: 0 <= i < |r| ==> r[i] in services && r[i].destination == destination
  {
    if services == [] then []
    else
      var rest := Matching(services[..|services| - 1], destination);
      var last := services[|services| - 1];
      if last.destination == destination then rest + [last] else rest
  }

  /**
   * The list `get_services` returns: every service when the destination is
   * falsy, else the services bound for it.
   */
  function GetServices(services: seq<Service>, destination: Option<string>): (r: seq<Service>)
    ensures !Truthy(destination) ==> r == services
    ensures Truthy(destination) ==> forall i :: 0 <= i < |r| ==> r[i].destination == destination.value
  {
    if !Truthy(destination) then services else Matching(services, destination.value)
  }

  /** `r` is the subsequence of `s` at the strictly increasing positions `idx`. */
  ghost predicate PicksOut<T>(r: seq<T>, s: seq<T>, idx: seq<int>) {
    && |idx| == |r|
    && (forall k :: 0 <= k < |idx| ==> 0 <= idx[k] < |s| && r[k] == s[idx[k]])
    && (forall k, l :: 0 <= k < l < |idx| ==> idx[k] < idx[l])
  }

  /** The positions of the services bound for `destination`, in increasing order. */
  ghost function MatchPositions(services: seq<Service>, destination: string): seq<int> {
    if services == [] then []
    else
      MatchPositions(services[..|services| - 1], destination)
      + (if services[|services| - 1].destination == destination then [|services| - 1] else [])
  }

  lemma {:induction false} MatchingPicksOut(services: seq<Service>, destination: string)
    ensures PicksOut(Matching(services, destination), services, MatchPositions(services, destination))
    ensures forall i :: 0 <= i < |services| ==>
      (i in MatchPositions(services, destination) <==> services[i].destination == destination)
  {
    if services != [] {
      var n := |services| - 1;
      var prefix := services[..n];
      MatchingPicksOut(prefix, destination);
      var p := MatchPositions(prefix, destination);
      assert forall k :: 0 <= k < |p| ==> p[k] < n;
      assert forall i :: 0 <= i < n ==> services[i] == prefix[i];
    }
  }

  /**
   * With a truthy destination the filter keeps exactly the services bound
   * for it, each once and in their original order.
   */
  lemma FilterPicksOutMatches(services: seq<Service>, destination: Option<string>)
    requires Truthy(destination)
    ensures exists idx ::
      && PicksOut(GetServices(services, destination), services, idx)
      && forall i :: 0 <= i < |services| ==> (i in idx <==> services[i].destination == destination.value)
  {
    MatchingPicksOut(services, destination.value);
    var idx := MatchPositions(services, destination.value);
    assert PicksOut(GetServices(services, destination), services, idx);
  }

  /** With a falsy destination the filter keeps every service, in order. */
  lemma FilterKeepsAll(services: seq<Service>, destination: Option<string>)
    requires !Truthy(destination)
    ensures PicksOut(GetServices(services, destination), services, seq(|services|, i => i))
  {
  }
}
