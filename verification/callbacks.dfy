/**
 * Callback ordering and parameter snapshots of the legacy callback API:
 * `FC_LayoutInflated.compareTo`, the `LayoutInflatedParam` and
 * `InitPackageResourcesParam` constructors, and the type-guarded `call`
 * of both callback kinds.
 */
module Callbacks {
  import opened JavaLang

  /**
   * An `FCallback` object. `priority` is the value given to its constructor,
   * `identityHash` is what `System.identityHashCode` answers for it, and `id`
   * tells distinct objects apart, so that `==` on this datatype is Java's
   * reference identity.
   */
  datatype Callback = Callback(id: nat, priority: Int32, identityHash: Int32)

  /** The sign of a comparison result, as `Integer.signum` gives it. */
  function Sign(x: int): int {
    if x < 0 then -1 else if x == 0 then 0 else 1
  }

  /**
   * `FC_LayoutInflated.compareTo`, as written: the priority difference is
   * computed in 32-bit arithmetic and may wrap around.
   * It answers 0 exactly for the object itself, and ±1 for distinct objects
   * of equal priority.
   */
  function CompareTo(self: Callback, other: Callback): (r: Int32)
    ensures r == 0 <==> self == other
    ensures self != other && self.priority == other.priority ==> r == -1 || r == 1
  {
    if self == other then 0
    else if other.priority != self.priority then
      Wrap32(other.priority as int - self.priority as int)
    else if self.identityHash < other.identityHash then -1
    else 1
  }

  /** When the priority difference fits in an `int`, the higher priority sorts first. */
  lemma HigherPrioritySortsFirst(a: Callback, b: Callback)
    requires a.priority != b.priority
    requires FitsInt32(b.priority as int - a.priority as int)
    ensures CompareTo(a, b) < 0 <==> a.priority > b.priority
    ensures CompareTo(a, b) > 0 <==> a.priority < b.priority
  {
  }

  /**
   * Distinct objects whose priorities or identity hashes differ compare in
   * opposite directions (when the priority difference does not overflow).
   */
  lemma AntisymmetricWithoutCollision(a: Callback, b: Callback)
    requires a != b
    requires a.priority != b.priority || a.identityHash != b.identityHash
    requires FitsInt32(b.priority as int - a.priority as int)
    requires FitsInt32(a.priority as int - b.priority as int)
    ensures Sign(CompareTo(a, b) as int) == -Sign(CompareTo(b, a) as int)
    ensures CompareTo(a, b) != 0
  {
  }

  /**
   * Two distinct objects with equal priority and colliding identity hashes
   * each claim to sort after the other: `compareTo` is not antisymmetric.
   */
  lemma HashCollisionBreaksAntisymmetry(a: Callback, b: Callback)
    requires a != b && a.priority == b.priority && a.identityHash == b.identityHash
    ensures CompareTo(a, b) == 1 && CompareTo(b, a) == 1
  {
  }

  /**
   * The subtraction wraps for far-apart priorities: a callback of priority
   * `Integer.MIN_VALUE` is ordered before one of priority 1, so the lower
   * priority would run first.
   */
  lemma OverflowReversesOrder()
    ensures var low, high := Callback(0, -0x8000_0000, 0), Callback(1, 1, 0);
            high.priority > low.priority && CompareTo(low, high) < 0 && CompareTo(high, low) > 0
  {
  }

  /**
   * The order `compareTo` evidently intends: priority descending, compared
   * without subtraction (as `Integer.compare(other.priority, this.priority)`
   * would), then identity hash.
   */
  function CompareToIntended(self: Callback, other: Callback): (r: Int32)
    ensures r == 0 <==> self == other
    ensures self.priority != other.priority ==> (r < 0 <==> self.priority > other.priority)
    ensures self != other && self.priority == other.priority ==> (r < 0 <==> self.identityHash < other.identityHash)
  {
    if self == other then 0
    else if other.priority != self.priority then
      (if other.priority < self.priority then -1 else 1)
    else if self.identityHash < other.identityHash then -1
    else 1
  }

  /** The intended order is antisymmetric for every pair of priorities. */
  lemma IntendedAntisymmetric(a: Callback, b: Callback)
    requires a != b
    requires a.priority != b.priority || a.identityHash != b.identityHash
    ensures Sign(CompareToIntended(a, b) as int) == -Sign(CompareToIntended(b, a) as int)
  {
  }

  /** Where the subtraction does not overflow, the code as written agrees with the intended order. */
  lemma AsWrittenAgreesWhenNoOverflow(a: Callback, b: Callback)
    requires FitsInt32(b.priority as int - a.priority as int)
    ensures Sign(CompareTo(a, b) as int) == Sign(CompareToIntended(a, b) as int)
  {
  }

  // ---------------------------------------------------------------------
  // Parameters and their snapshots

  /**
   * `FCallback.Param`: every parameter carries the array of callbacks that
   * will receive it, taken when the parameter is constructed. The event
   * fields that callers assign afterwards (view, resources, package name)
   * are not modelled.
   */
  datatype Param =
    | LayoutInflatedParam(callbacks: seq<Callback>)
    | InitPackageResourcesParam(callbacks: seq<Callback>)
    | OtherParam(callbacks: seq<Callback>)

  /** A set holds each object at most once. */
  predicate NoDuplicates(s: seq<Callback>) {
    forall i, j :: 0 <= i < j < |s| ==> s[i] != s[j]
  }

  function Members(s: seq<Callback>): set<Callback> {
    set c | c in s
  }

  /** A duplicate-free sequence has as many elements as the set of its members. */
  lemma {:induction false} DistinctCount(s: seq<Callback>)
    requires NoDuplicates(s)
    ensures |Members(s)| == |s|
  {
    if s != [] {
      assert NoDuplicates(s[1..]);
      DistinctCount(s[1..]);
      assert Members(s) == Members(s[1..]) + {s[0]};
      assert s[0] !in Members(s[1..]);
    }
  }

  /**
   * `new LayoutInflatedParam(callbacks)`: the parameter holds the snapshot
   * the copy-on-write sorted set hands out, with its members in its order.
   */
  function NewLayoutInflatedParam(sortedSet: seq<Callback>): (p: Param)
    requires NoDuplicates(sortedSet)
    ensures p.LayoutInflatedParam?
    ensures Members(p.callbacks) == Members(sortedSet) && NoDuplicates(p.callbacks)
    ensures |p.callbacks| == |sortedSet| && forall i :: 0 <= i < |sortedSet| ==> p.callbacks[i] == sortedSet[i]
  {
    LayoutInflatedParam(sortedSet)
  }

  /**
   * `new InitPackageResourcesParam(callbacks)`: `toArray` of the
   * copy-on-write set, so the array has no duplicates and as many slots as
   * the set has members at that moment.
   */
  function NewInitPackageResourcesParam(set_: seq<Callback>): (p: Param)
    requires NoDuplicates(set_)
    ensures p.InitPackageResourcesParam?
    ensures Members(p.callbacks) == Members(set_) && NoDuplicates(p.callbacks)
    ensures |p.callbacks| == |Members(set_)|
  {
    DistinctCount(set_);
    InitPackageResourcesParam(set_)
  }

  /** `CopyOnWriteArraySet.add`: installs a new member array with `c` at the end, unless present. */
  function AddMember(s: seq<Callback>, c: Callback): (r: seq<Callback>)
    requires NoDuplicates(s)
    ensures NoDuplicates(r) && Members(r) == Members(s) + {c}
  {
    if c in s then s else s + [c]
  }

  /** `CopyOnWriteArraySet.remove`: installs a new member array without `c`. */
  function RemoveMember(s: seq<Callback>, c: Callback): (r: seq<Callback>)
    requires NoDuplicates(s)
    ensures NoDuplicates(r) && Members(r) == Members(s) - {c}
  {
    if s == [] then []
    else
      assert NoDuplicates(s[1..]);
      if s[0] == c then RemoveMember(s[1..], c)
      else
        var rest := RemoveMember(s[1..], c);
        assert s[0] !in Members(s[1..]);
        assert s[0] !in rest by { assert s[0] !in Members(rest); }
        var r := [s[0]] + rest;
        assert Members(r) == {s[0]} + Members(rest);
        assert forall i :: 1 <= i < |r| ==> r[i] == rest[i - 1];
        r
  }

  /**
   * A callback registered after a parameter was built is in the registry
   * but not in the parameter's snapshot, so that event does not reach it.
   */
  lemma LateRegistrationNotInSnapshot(registry: seq<Callback>, c: Callback)
    requires NoDuplicates(registry) && c !in registry
    ensures c in AddMember(registry, c)
    ensures c !in NewInitPackageResourcesParam(registry).callbacks
    ensures c !in NewLayoutInflatedParam(registry).callbacks
  {
  }

  /**
   * A callback removed after a parameter was built is gone from the
   * registry but still in the parameter's snapshot.
   */
  lemma LateRemovalStillInSnapshot(registry: seq<Callback>, c: Callback)
    requires NoDuplicates(registry) && c in registry
    ensures c !in RemoveMember(registry, c)
    ensures c in NewInitPackageResourcesParam(registry).callbacks
    ensures c in NewLayoutInflatedParam(registry).callbacks
  {
  }

  // ---------------------------------------------------------------------
  // Type-guarded dispatch

  /** The handler invocation a `call` performs. */
  datatype Invocation =
    | HandleLayoutInflated(callback: Callback, param: Param)
    | HandleInitPackageResources(callback: Callback, param: Param)

  /** `FC_LayoutInflated.call`: only a `LayoutInflatedParam` reaches the handler. */
  function CallLayoutInflated(callback: Callback, param: Param): (r: Option<Invocation>)
    ensures r.Some? <==> param.LayoutInflatedParam?
    ensures r.Some? ==> r.value.HandleLayoutInflated? && r.value.callback == callback && r.value.param == param
  {
    if param.LayoutInflatedParam? then Some(HandleLayoutInflated(callback, param)) else None
  }

  /** `FC_InitPackageResources.call`: only an `InitPackageResourcesParam` reaches the handler. */
  function CallInitPackageResources(callback: Callback, param: Param): (r: Option<Invocation>)
    ensures r.Some? <==> param.InitPackageResourcesParam?
    ensures r.Some? ==> r.value.HandleInitPackageResources? && r.value.callback == callback && r.value.param == param
  {
    if param.InitPackageResourcesParam? then Some(HandleInitPackageResources(callback, param)) else None
  }

  /** A parameter reaches at most one of the two handler kinds. */
  lemma GuardsAreDisjoint(callback: Callback, param: Param)
    ensures CallLayoutInflated(callback, param).None? || CallInitPackageResources(callback, param).None?
    ensures param.OtherParam? ==> CallLayoutInflated(callback, param).None? && CallInitPackageResources(callback, param).None?
  {
  }
}
