/**
 * Python's `dict` as the script uses it: the assignment `d[k] = v` and the
 * iteration over `d.items()`, which visits keys in the order they were first
 * inserted.  A dict's contents are the sequence of its (key, value) pairs in
 * that iteration order; no key occurs twice.
 */
module OrderedDicts {
  import opened Wrappers

  /** The keys of `d`, in iteration order. */
  function Keys<V>(d: seq<(string, V)>): seq<string> {
    seq(|d|, i requires 0 <= i < |d| => d[i].0)
  }

  /** No key occurs twice. */
  predicate DistinctKeys<V>(d: seq<(string, V)>) {
    forall i, j :: 0 <= i < j < |d| ==> d[i].0 != d[j].0
  }

  /** The position of `k` in `d`, or `|d|` when `k` is absent. */
  function IndexOf<V>(d: seq<(string, V)>, k: string): (i: nat)
    ensures i <= |d|
    ensures i < |d| ==> d[i].0 == k
    ensures forall j :: 0 <= j < i ==> d[j].0 != k
  {
    if d == [] then 0
    else if d[0].0 == k then 0
    else 1 + IndexOf(d[1..], k)
  }

  /** `d.get(k)`: the value stored under `k`, or None when `k` is absent. */
  function Lookup<V>(d: seq<(string, V)>, k: string): (r: Option<V>)
    ensures r.None? <==> k !in Keys(d)
    ensures r.Some? ==> (k, r.value) in d
  {
    var i := IndexOf(d, k);
    if i < |d| then
      assert Keys(d)[i] == k;
      Some(d[i].1)
    else None
  }

  /** The position of a key is the first place it occurs. */
  lemma IndexOfFirst<V>(d: seq<(string, V)>, k: string, i: int)
    requires 0 <= i <= |d|
    requires i < |d| ==> d[i].0 == k
    requires forall j :: 0 <= j < i ==> d[j].0 != k
    ensures IndexOf(d, k) == i
  {
  }

  /** Positions depend on the keys alone. */
  lemma IndexOfByKeys<V>(a: seq<(string, V)>, b: seq<(string, V)>)
    requires Keys(a) == Keys(b)
    ensures forall k :: IndexOf(a, k) == IndexOf(b, k)
  {
    forall k ensures IndexOf(a, k) == IndexOf(b, k) {
      var i := IndexOf(b, k);
      assert |a| == |Keys(a)| == |b|;
      assert forall j :: 0 <= j < |a| ==> a[j].0 == Keys(a)[j] == b[j].0;
      IndexOfFirst(a, k, i);
    }
  }

  /** Appending a pair with a new key moves no other key. */
  lemma IndexOfAppend<V>(d: seq<(string, V)>, k: string, v: V)
    requires k !in Keys(d)
    ensures IndexOf(d + [(k, v)], k) == |d|
    ensures forall k' :: k' != k ==> IndexOf(d + [(k, v)], k') == if IndexOf(d, k') < |d| then IndexOf(d, k') else |d| + 1
  {
    var r := d + [(k, v)];
    forall j | 0 <= j < |d| ensures d[j].0 != k {
      assert Keys(d)[j] == d[j].0;
    }
    IndexOfFirst(r, k, |d|);
    forall k' | k' != k
      ensures IndexOf(r, k') == if IndexOf(d, k') < |d| then IndexOf(d, k') else |d| + 1
    {
      var i := IndexOf(d, k');
      IndexOfFirst(r, k', if i < |d| then i else |d| + 1);
    }
  }

  /**
   * `d[k] = v`: a key already present keeps its position and gets the new
   * value; a new key goes at the end.  No other entry changes.
   */
  function Assign<V>(d: seq<(string, V)>, k: string, v: V): (r: seq<(string, V)>)
    ensures Keys(r) == if k in Keys(d) then Keys(d) else Keys(d) + [k]
    ensures Lookup(r, k) == Some(v)
    ensures forall k' :: k' != k ==> Lookup(r, k') == Lookup(d, k')
    ensures forall j :: 0 <= j < |d| && d[j].0 != k ==> r[j] == d[j]
    ensures DistinctKeys(d) ==> DistinctKeys(r)
  {
    var i := IndexOf(d, k);
    if i < |d| then
      var r := d[i := (k, v)];
      assert Keys(d)[i] == k;
      assert Keys(r) == Keys(d);
      IndexOfByKeys(r, d);
      r
    else
      var r := d + [(k, v)];
      assert k !in Keys(d);
      assert Keys(r) == Keys(d) + [k];
      IndexOfAppend(d, k, v);
      r
  }

  /** A dict object, mutated in place by assignment. */
  class OrderedDict<V> {
    var entries: seq<(string, V)>

    ghost predicate Valid()
      reads this
    {
      DistinctKeys(entries)
    }

    /** `{}` */
    constructor ()
      ensures Valid() && entries == []
    {
      entries := [];
    }

    /** `self[k] = v`: overwrite the pair holding `k` where it stands, or append one. */
    method Set(k: string, v: V)
      requires Valid()
      modifies this
      ensures Valid()
      ensures entries == Assign(old(entries), k, v)
    {
      var i := 0;
      while i < |entries| && entries[i].0 != k
        invariant 0 <= i <= |entries|
        invariant forall j :: 0 <= j < i ==> entries[j].0 != k
      {
        i := i + 1;
      }
      if i < |entries| {
        entries := entries[i := (k, v)];
      } else {
        entries := entries + [(k, v)];
      }
    }
  }
}
