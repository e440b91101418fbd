/**
 * The fixed-size client tables of server.go (`clients []chan []byte`) and
 * ws/server.go (`conns []*websocket.Conn`): a slot is nil (None) or holds a
 * client. `getConnIndex` scans for the lowest nil slot, `HandleGetStat` counts
 * the occupied ones.
 */
module SlotTable {
  import opened Common

  /** The number of occupied slots. */
  function Occupied<T>(s: seq<Option<T>>): (n: nat)
    ensures n <= |s|
  {
    if s == [] then 0 else Occupied(s[..|s| - 1]) + (if s[|s| - 1].Some? then 1 else 0)
  }

  predicate Full<T>(s: seq<Option<T>>)
  {
    forall i :: 0 <= i < |s| ==> s[i].Some?
  }

  /** The table is full exactly when every slot is counted. */
  lemma {:induction false} FullIffAllOccupied<T>(s: seq<Option<T>>)
    ensures Full(s) <==> Occupied(s) == |s|
  {
    if s != [] {
      var init := s[..|s| - 1];
      FullIffAllOccupied(init);
      if Full(s) {
        assert Full(init) by {
          forall i | 0 <= i < |init| ensures init[i].Some? {
            assert init[i] == s[i];
          }
        }
      }
      if Occupied(s) == |s| {
        assert Occupied(init) == |init| && s[|s| - 1].Some?;
        forall i | 0 <= i < |s| ensures s[i].Some? {
          if i < |init| {
            assert s[i] == init[i];
          }
        }
      }
    }
  }

  /** Writing one slot changes the count by what left and what arrived. */
  lemma {:induction false} OccupiedUpdate<T>(s: seq<Option<T>>, i: nat, v: Option<T>)
    requires i < |s|
    ensures Occupied(s[i := v]) + (if s[i].Some? then 1 else 0) == Occupied(s) + (if v.Some? then 1 else 0)
  {
    var t := s[i := v];
    if i < |s| - 1 {
      assert t[..|t| - 1] == s[..|s| - 1][i := v];
      OccupiedUpdate(s[..|s| - 1], i, v);
    } else {
      assert t[..|t| - 1] == s[..|s| - 1];
    }
  }

  /** `getConnIndex`: the lowest nil slot, or -1 when there is none. */
  method FirstFree<T>(a: array<Option<T>>) returns (i: int)
    ensures -1 <= i < a.Length
    ensures i == -1 <==> Full(a[..])
    ensures i >= 0 ==> a[i].None? && forall j :: 0 <= j < i ==> a[j].Some?
  {
    for k := 0 to a.Length
      invariant forall j :: 0 <= j < k ==> a[j].Some?
    {
      if a[k].None? {
        return k;
      }
    }
    return -1;
  }

  /** The counting loop of `HandleGetStat`. */
  method CountOccupied<T>(a: array<Option<T>>) returns (n: nat)
    ensures n == Occupied(a[..])
  {
    n := 0;
    for k := 0 to a.Length
      invariant n == Occupied(a[..k])
    {
      assert a[..k + 1][..k] == a[..k];
      if a[k].Some? {
        n := n + 1;
      }
    }
    assert a[..a.Length] == a[..];
  }
}
