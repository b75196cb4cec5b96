/**
 * `get_info`: the dict from "Departure: <time>" / "Arrival: <time>" to a
 * per-service field dict, built by one pass over the filtered services.
 */
module Formatter {
  import opened Wrappers
  import opened OrderedDicts
  import opened Services

  /** A per-service field dict: field name to a string or None, in insertion order. */
  type Fields = seq<(string, Option<string>)>

  /** The service info dict: entry key to field dict, in insertion order. */
  type Info = seq<(string, Fields)>

  /** The value a service record holds under a response field name (None for other names). */
  function Attribute(s: Service, name: string): Option<string> {
    if name == "platform" then s.platform
    else if name == "arrives" then s.arrives
    else if name == "departs" then s.departs
    else if name == "expected" then Some(s.expected)
    else if name == "destination" then Some(s.destination)
    else if name == "origin" then Some(s.origin)
    else None
  }

  /** The (key, field dict) pair one iteration of the loop stores, or None when it stores nothing. */
  function EntryOf(s: Service): (e: Option<(string, Fields)>)
    ensures e.None? <==> !Truthy(s.departs) && !Truthy(s.arrives)
    ensures Truthy(s.departs) ==> e.Some? && e.value.0 == "Departure: " + s.departs.value
    ensures !Truthy(s.departs) && Truthy(s.arrives) ==> e.Some? && e.value.0 == "Arrival: " + s.arrives.value
    ensures e.Some? ==>
      Keys(e.value.1) == (if Truthy(s.departs) && Truthy(s.arrives)
                          then ["platform", "arrives", "expected", "destination", "origin"]
                          else ["platform", "expected", "destination", "origin"])
    ensures e.Some? ==> forall i :: 0 <= i < |e.value.1| ==> e.value.1[i].1 == Attribute(s, e.value.1[i].0)
  {
    if Truthy(s.departs) && Truthy(s.arrives) then
      Some(("Departure: " + s.departs.value,
            [("platform", s.platform), ("arrives", s.arrives), ("expected", Some(s.expected)),
             ("destination", Some(s.destination)), ("origin", Some(s.origin))]))
    else if Truthy(s.departs) then
      Some(("Departure: " + s.departs.value,
            [("platform", s.platform), ("expected", Some(s.expected)),
             ("destination", Some(s.destination)), ("origin", Some(s.origin))]))
    else if Truthy(s.arrives) then
      Some(("Arrival: " + s.arrives.value,
            [("platform", s.platform), ("expected", Some(s.expected)),
             ("destination", Some(s.destination)), ("origin", Some(s.origin))]))
    else
      None
  }

  /** One iteration of the loop applied to the dict built so far. */
  function Step(info: Info, s: Service): (r: Info)
    ensures DistinctKeys(info) ==> DistinctKeys(r)
  {
    match EntryOf(s)
    case None => info
    case Some(e) => Assign(info, e.0, e.1)
  }

  /** The dict `get_info` returns for the filtered services. */
  function Formatted(services: seq<Service>): (info: Info)
    ensures DistinctKeys(info)
    ensures |info| <= |services|
  {
    if services == [] then []
    else Step(Formatted(services[..|services| - 1]), services[|services| - 1])
  }

  /** The loop of `get_info`, assigning into a dict object. */
  method GetInfo(services: seq<Service>) returns (info: Info)
    ensures info == Formatted(services)
  {
    var serviceInfo := new OrderedDict<Fields>();
    var i := 0;
    while i < |services|
      invariant 0 <= i <= |services|
      invariant serviceInfo.Valid()
      invariant serviceInfo.entries == Formatted(services[..i])
    {
      var service := services[i];
      ghost var before := serviceInfo.entries;
      if Truthy(service.departs) && Truthy(service.arrives) {
        var fields := [("platform", service.platform), ("arrives", service.arrives),
                       ("expected", Some(service.expected)), ("destination", Some(service.destination)),
                       ("origin", Some(service.origin))];
        serviceInfo.Set("Departure: " + service.departs.value, fields);
      } else if Truthy(service.departs) {
        var fields := [("platform", service.platform), ("expected", Some(service.expected)),
                       ("destination", Some(service.destination)), ("origin", Some(service.origin))];
        serviceInfo.Set("Departure: " + service.departs.value, fields);
      } else if Truthy(service.arrives) {
        var fields := [("platform", service.platform), ("expected", Some(service.expected)),
                       ("destination", Some(service.destination)), ("origin", Some(service.origin))];
        serviceInfo.Set("Arrival: " + service.arrives.value, fields);
      }
      assert serviceInfo.entries == Step(before, service);
      FormattedStep(services, i);
      i := i + 1;
    }
    assert services[..|services|] == services;
    info := serviceInfo.entries;
  }

  lemma FormattedStep(services: seq<Service>, i: int)
    requires 0 <= i < |services|
    ensures Formatted(services[..i + 1]) == Step(Formatted(services[..i]), services[i])
  {
    assert services[..i + 1][..i] == services[..i];
  }

  /** Service `s` makes the loop store under key `k`. */
  predicate EmitsKey(s: Service, k: string) {
    EntryOf(s).Some? && EntryOf(s).value.0 == k
  }

  /** One iteration changes the value under `k` only when its service stores under `k`. */
  lemma StepLookup(info: Info, s: Service, k: string)
    ensures Lookup(Step(info, s), k) == if EmitsKey(s, k) then Some(EntryOf(s).value.1) else Lookup(info, k)
  {
  }

  /** A key is absent from the dict exactly when no service stores under it. */
  lemma {:induction false} FormattedAbsent(services: seq<Service>, k: string)
    ensures Lookup(Formatted(services), k).None? <==> forall i :: 0 <= i < |services| ==> !EmitsKey(services[i], k)
  {
    if services != [] {
      var n := |services| - 1;
      var prefix := services[..n];
      FormattedAbsent(prefix, k);
      assert Formatted(services) == Step(Formatted(prefix), services[n]);
      StepLookup(Formatted(prefix), services[n], k);
      if !EmitsKey(services[n], k) {
        assert forall i :: 0 <= i < n ==> prefix[i] == services[i];
      }
    }
  }

  /**
   * Last write wins: the value under a key is the field dict of the last
   * service that stores under it.
   */
  lemma {:induction false} FormattedLastWins(services: seq<Service>, k: string, i: int)
    requires 0 <= i < |services| && EmitsKey(services[i], k)
    requires forall j :: i < j < |services| ==> !EmitsKey(services[j], k)
    ensures Lookup(Formatted(services), k) == Some(EntryOf(services[i]).value.1)
  {
    FormattedLookupLast(services, k);
    if i < |services| - 1 {
      PrefixStoresLater(services, services[..|services| - 1], k, i);
      FormattedLastWins(services[..|services| - 1], k, i);
    }
  }

  /** The value under `k` after the last service, from the value before it. */
  lemma FormattedLookupLast(services: seq<Service>, k: string)
    requires services != []
    ensures Lookup(Formatted(services), k) ==
      if EmitsKey(services[|services| - 1], k) then Some(EntryOf(services[|services| - 1]).value.1)
      else Lookup(Formatted(services[..|services| - 1]), k)
  {
    var n := |services| - 1;
    assert Formatted(services) == Step(Formatted(services[..n]), services[n]);
    StepLookup(Formatted(services[..n]), services[n], k);
  }

  /** Dropping the last service keeps which of the others store under `k`. */
  lemma PrefixStoresLater(services: seq<Service>, prefix: seq<Service>, k: string, i: int)
    requires 0 <= i < |services| - 1 && prefix == services[..|services| - 1]
    requires forall j :: i < j < |services| ==> !EmitsKey(services[j], k)
    ensures prefix[i] == services[i]
    ensures forall j :: i < j < |prefix| ==> !EmitsKey(prefix[j], k)
  {
    forall j | i < j < |prefix| ensures !EmitsKey(prefix[j], k) {
      assert prefix[j] == services[j];
    }
  }

  /** The keys of `ks` with repeats dropped, each where it first occurs. */
  function Dedup(ks: seq<string>): (r: seq<string>)
    ensures forall k :: k in r <==> k in ks
  {
    if ks == [] then []
    else
      var p := Dedup(ks[..|ks| - 1]);
      var last := ks[|ks| - 1];
      assert ks == ks[..|ks| - 1] + [last];
      if last in p then p else p + [last]
  }

  /** The keys the loop stores under, one per storing service, in order. */
  function StoredKeys(services: seq<Service>): seq<string> {
    if services == [] then []
    else
      StoredKeys(services[..|services| - 1])
      + match EntryOf(services[|services| - 1]) case None => [] case Some(e) => [e.0]
  }

  /** Entries appear in the order their keys were first stored; later stores do not move them. */
  lemma {:induction false} FormattedKeyOrder(services: seq<Service>)
    ensures Keys(Formatted(services)) == Dedup(StoredKeys(services))
  {
    if services != [] {
      var n := |services| - 1;
      var prefix := services[..n];
      FormattedKeyOrder(prefix);
      var d := Formatted(prefix);
      assert Formatted(services) == Step(d, services[n]);
      match EntryOf(services[n])
      case None =>
        assert StoredKeys(services) == StoredKeys(prefix);
      case Some(e) =>
        var ks := StoredKeys(services);
        assert ks == StoredKeys(prefix) + [e.0];
        assert ks[..|ks| - 1] == StoredKeys(prefix);
        assert Dedup(ks) == if e.0 in Keys(d) then Keys(d) else Keys(d) + [e.0];
    }
  }

  /** `Dedup` keeps one copy of each distinct key. */
  lemma {:induction false} DedupCount(ks: seq<string>)
    ensures |Dedup(ks)| == |set k | k in ks|
  {
    if ks != [] {
      var p := ks[..|ks| - 1];
      var last := ks[|ks| - 1];
      DedupCount(p);
      assert ks == p + [last];
      assert (set k | k in ks) == (set k | k in p) + {last};
      if last in p {
        assert (set k | k in ks) == (set k | k in p);
      } else {
        assert last !in (set k | k in p);
        assert Dedup(ks) == Dedup(p) + [last];
      }
    }
  }

  /** The dict has one entry per distinct key stored, so at most one per service. */
  lemma FormattedSize(services: seq<Service>)
    ensures |Formatted(services)| == |set k | k in StoredKeys(services)|
    ensures |Formatted(services)| <= |services|
  {
    FormattedKeyOrder(services);
    DedupCount(StoredKeys(services));
  }

  /** The dict is empty exactly when no service has a truthy departure or arrival time. */
  lemma {:induction false} FormattedEmpty(services: seq<Service>)
    ensures Formatted(services) == [] <==>
      forall i :: 0 <= i < |services| ==> !Truthy(services[i].departs) && !Truthy(services[i].arrives)
  {
    if services != [] {
      var n := |services| - 1;
      var prefix := services[..n];
      FormattedEmpty(prefix);
      assert forall i :: 0 <= i < n ==> prefix[i] == services[i];
      var d := Formatted(prefix);
      match EntryOf(services[n])
      case None =>
      case Some(e) =>
        assert |Keys(Assign(d, e.0, e.1))| >= 1;
    }
  }
}
