/** A Python dict from strike price to open interest. Python dicts iterate
    their keys in first-insertion order, and assigning to an existing key
    keeps that key where it is; `StrikeMap` records that order next to the
    key/value table. */
module StrikeMaps {
  import opened Wrappers

  datatype StrikeMap = StrikeMap(order: seq<int>, oi: map<int, int>)
  {
    /** Every key appears once in `order`, and `order` lists exactly the keys. */
    ghost predicate Valid()
    {
      && (forall i, j | 0 <= i < j < |order| :: order[i] != order[j])
      && (forall k :: k in oi <==> k in order)
    }

    /** `d[k] = v`: a new key goes to the end of the iteration order, an
        existing key keeps its place and gets the new value. */
    function Set(k: int, v: int): (r: StrikeMap)
      ensures Valid() ==> r.Valid()
      ensures r.oi == oi[k := v]
      ensures |order| <= |r.order| && r.order[..|order|] == order
      ensures |r.order| == if k in oi then |order| else |order| + 1
    {
      if k in oi then StrikeMap(order, oi[k := v])
      else StrikeMap(order + [k], oi[k := v])
    }
  }

  const Empty := StrikeMap([], map[])

  /** Every key listed has a value. */
  ghost predicate KeysIn(keys: seq<int>, oi: map<int, int>)
  {
    forall j | 0 <= j < |keys| :: keys[j] in oi
  }

  /** `keys[i]` holds a largest value, and every key before it holds a
      strictly smaller one: the first maximal key in iteration order. */
  ghost predicate FirstMaxAt(keys: seq<int>, oi: map<int, int>, i: int)
    requires KeysIn(keys, oi)
  {
    && 0 <= i < |keys|
    && (forall j | 0 <= j < |keys| :: oi[keys[j]] <= oi[keys[i]])
    && (forall j | 0 <= j < i :: oi[keys[j]] < oi[keys[i]])
  }

  /** The scan `max` makes over the keys: the candidate is replaced only
      by a key whose value is strictly greater. */
  function MaxIndex(keys: seq<int>, oi: map<int, int>): (i: nat)
    requires keys != [] && KeysIn(keys, oi)
    ensures FirstMaxAt(keys, oi, i)
    decreases |keys|
  {
    var n := |keys| - 1;
    if n == 0 then 0
    else
      var best := MaxIndex(keys[..n], oi);
      if oi[keys[n]] > oi[keys[best]] then n else best
  }

  /** At most one position is the first maximal one. */
  lemma FirstMaxUnique(keys: seq<int>, oi: map<int, int>, i: int, j: int)
    requires KeysIn(keys, oi)
    requires FirstMaxAt(keys, oi, i) && FirstMaxAt(keys, oi, j)
    ensures i == j
  {
    assert oi[keys[i]] == oi[keys[j]];
  }

  /** `s` is the key `max(d, key=d.get)` picks: present, with the largest
      value, and the first such key in iteration order. */
  ghost predicate IsArgMax(m: StrikeMap, s: int)
    requires m.Valid()
  {
    && s in m.oi
    && (forall k | k in m.oi :: m.oi[k] <= m.oi[s])
    && exists i :: FirstMaxAt(m.order, m.oi, i) && m.order[i] == s
  }

  /** `max(d, key=d.get)`; `None` stands for the ValueError `max` raises
      on an empty dict. */
  function MaxKey(m: StrikeMap): (r: Option<int>)
    requires m.Valid()
    ensures r.None? <==> m.oi == map[]
    ensures r.Some? ==> IsArgMax(m, r.value)
  {
    if m.order == [] then
      assert forall k :: k !in m.oi;
      None
    else
      var i := MaxIndex(m.order, m.oi);
      assert forall k | k in m.oi :: exists j :: 0 <= j < |m.order| && m.order[j] == k;
      Some(m.order[i])
  }

  /** Sum of the values of `keys`, taken in order. */
  function SumOf(keys: seq<int>, oi: map<int, int>): (s: int)
    requires KeysIn(keys, oi)
  {
    if keys == [] then 0
    else SumOf(keys[..|keys| - 1], oi) + oi[keys[|keys| - 1]]
  }

  /** With no negative value, the sum is at least each value it adds up. */
  lemma {:induction false} SumOfBounds(keys: seq<int>, oi: map<int, int>)
    requires KeysIn(keys, oi)
    ensures (forall j | 0 <= j < |keys| :: 0 <= oi[keys[j]]) ==>
      forall j | 0 <= j < |keys| :: oi[keys[j]] <= SumOf(keys, oi)
  {
    if keys != [] && forall j | 0 <= j < |keys| :: 0 <= oi[keys[j]] {
      var n := |keys| - 1;
      SumOfBounds(keys[..n], oi);
      assert forall j | 0 <= j < n :: keys[..n][j] == keys[j];
    }
  }

  /** `sum(d.values())`: zero for an empty dict, and, when no value is
      negative (as open interest never is), at least each value. */
  function Total(m: StrikeMap): (t: int)
    requires m.Valid()
    ensures m.oi == map[] ==> t == 0
    ensures (forall k | k in m.oi :: 0 <= m.oi[k]) ==> forall k | k in m.oi :: m.oi[k] <= t
  {
    SumOfBounds(m.order, m.oi);
    assert forall k | k in m.oi :: exists j :: 0 <= j < |m.order| && m.order[j] == k;
    SumOf(m.order, m.oi)
  }

  lemma {:induction false} SumOfUpdateAbsent(keys: seq<int>, oi: map<int, int>, k: int, v: int)
    requires KeysIn(keys, oi)
    requires k !in keys
    ensures SumOf(keys, oi[k := v]) == SumOf(keys, oi)
  {
    if keys != [] {
      SumOfUpdateAbsent(keys[..|keys| - 1], oi, k, v);
    }
  }

  lemma {:induction false} SumOfUpdatePresent(keys: seq<int>, oi: map<int, int>, k: int, v: int)
    requires KeysIn(keys, oi)
    requires forall i, j | 0 <= i < j < |keys| :: keys[i] != keys[j]
    requires k in keys
    ensures SumOf(keys, oi[k := v]) == SumOf(keys, oi) - oi[k] + v
  {
    var n := |keys| - 1;
    if keys[n] == k {
      assert k !in keys[..n];
      SumOfUpdateAbsent(keys[..n], oi, k, v);
    } else {
      assert k in keys[..n];
      SumOfUpdatePresent(keys[..n], oi, k, v);
    }
  }

  /** Overwriting a key replaces its contribution to the total instead of
      adding to it. */
  lemma TotalAfterSet(m: StrikeMap, k: int, v: int)
    requires m.Valid()
    ensures Total(m.Set(k, v)) == Total(m) + v - (if k in m.oi then m.oi[k] else 0)
  {
    if k in m.oi {
      SumOfUpdatePresent(m.order, m.oi, k, v);
    } else {
      var r := m.Set(k, v);
      assert r.order[..|r.order| - 1] == m.order;
      SumOfUpdateAbsent(m.order, m.oi, k, v);
    }
  }

  /** The dict object itself, mutated in place by item assignment. */
  class StrikeDict {
    var order: seq<int>
    var oi: map<int, int>

    function View(): (m: StrikeMap)
      reads this
    {
      StrikeMap(order, oi)
    }

    /** `{}` */
    constructor ()
      ensures View() == Empty
    {
      order := [];
      oi := map[];
    }

    /** `d[k] = v` */
    method Set(k: int, v: int)
      modifies this
      ensures View() == old(View()).Set(k, v)
    {
      if k !in oi {
        order := order + [k];
      }
      oi := oi[k := v];
    }
  }
}
