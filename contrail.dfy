/** The VLAN ids the Contrail network manager assigns to a network group. */
module Contrail {
  import opened Wrappers

  /** The two keys of a network-group description the manager reads; a key
      that is absent, or present with value None, is `None`. */
  datatype NetworkGroup = NetworkGroup(vlanStart: Option<int>, amount: Option<int>)

  /** `int(None)` raises a TypeError: the group has a VLAN start but no amount. */
  datatype VlanError = AmountMissing

  /** Python's `range(lo, hi)`: the integers from `lo` up to, not including, `hi`. */
  function Range(lo: int, hi: int): seq<int>
    decreases hi - lo
  {
    if hi <= lo then [] else [lo] + Range(lo + 1, hi)
  }

  lemma {:induction false} RangeElements(lo: int, hi: int)
    ensures |Range(lo, hi)| == (if hi <= lo then 0 else hi - lo)
    ensures forall i :: 0 <= i < |Range(lo, hi)| ==> Range(lo, hi)[i] == lo + i
    decreases hi - lo
  {
    if lo < hi {
      RangeElements(lo + 1, hi);
    }
  }

  /** The VLAN ids of a network group: none when it has no VLAN start,
      otherwise `amount` consecutive ids from the start. `data` and
      `cluster` are accepted and not looked at. */
  function GenerateVlanIdsList<D, C>(data: D, cluster: C, ng: NetworkGroup): (r: Result<seq<int>, VlanError>)
    ensures ng.vlanStart.None? ==> r == Ok([])
    ensures ng.vlanStart.Some? && ng.amount.None? ==> r == Failure(AmountMissing)
    ensures ng.vlanStart.Some? && ng.amount.Some? ==>
              r.Ok?
              && |r.value| == (if ng.amount.value <= 0 then 0 else ng.amount.value)
              && (forall i :: 0 <= i < |r.value| ==> r.value[i] == ng.vlanStart.value + i)
    ensures r.Ok? ==> forall i, j :: 0 <= i < j < |r.value| ==> r.value[i] < r.value[j]
    ensures r.Ok? && ng.vlanStart.Some? ==>
              forall v :: v in r.value <==> ng.vlanStart.value <= v < ng.vlanStart.value + ng.amount.value
  {
    match ng.vlanStart
    case None => Ok([])
    case Some(start) =>
      match ng.amount
      case None => Failure(AmountMissing)
      case Some(amount) =>
        var ids := Range(start, start + amount);
        RangeElements(start, start + amount);
        assert forall v :: start <= v < start + amount ==> v in ids by {
          forall v | start <= v < start + amount
            ensures v in ids
          {
            assert ids[v - start] == v;
          }
        }
        Ok(ids)
  }
}
