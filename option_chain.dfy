/** The decoded option-chain payload and the two strike -> open-interest
    dicts built from it (app.py, lines 56-64). */
module OptionChain {
  import opened Wrappers
  import opened StrikeMaps

  /** The `CE` or `PE` sub-object of an entry. */
  datatype Leg = Leg(openInterest: int)

  /** One element of `records.data`: a strike with an optional call leg
      (`CE`) and an optional put leg (`PE`). */
  datatype Entry = Entry(strikePrice: int, ce: Option<Leg>, pe: Option<Leg>)

  /** The `records` object: spot price and per-strike entries. */
  datatype Records = Records(underlyingValue: real, data: seq<Entry>)

  /** A value in the top-level JSON object; only `records` is looked into. */
  datatype Value = RecordsObject(records: Records) | OtherValue

  /** The decoded response body, a JSON object. */
  type Body = map<string, Value>

  datatype Side = CE | PE

  function LegOf(e: Entry, side: Side): (r: Option<Leg>)
  {
    match side
    case CE => e.ce
    case PE => e.pe
  }

  /** Entry `e` writes strike `k` into the dict of `side`. */
  ghost predicate Quotes(e: Entry, side: Side, k: int)
  {
    e.strikePrice == k && LegOf(e, side).Some?
  }

  /** One iteration of the loop for one side: an entry with a leg on that
      side assigns the leg's open interest to the entry's strike. */
  function Write(m: StrikeMap, e: Entry, side: Side): (r: StrikeMap)
    ensures m.Valid() ==> r.Valid()
    ensures LegOf(e, side).None? ==> r == m
    ensures LegOf(e, side).Some? ==> r.oi == m.oi[e.strikePrice := LegOf(e, side).value.openInterest]
    ensures LegOf(e, side).Some? && e.strikePrice in m.oi ==> r.order == m.order
    ensures LegOf(e, side).Some? && e.strikePrice !in m.oi ==> r.order == m.order + [e.strikePrice]
  {
    match LegOf(e, side)
    case None => m
    case Some(leg) => m.Set(e.strikePrice, leg.openInterest)
  }

  /** The dict of `side` after the loop has run over `es`. */
  function Collect(es: seq<Entry>, side: Side): (m: StrikeMap)
    ensures m.Valid()
  {
    if es == [] then Empty
    else Write(Collect(es[..|es| - 1], side), es[|es| - 1], side)
  }

  /** The keys of the dict are exactly the strikes of the entries that
      carry a leg on that side. */
  lemma {:induction false} CollectKeys(es: seq<Entry>, side: Side, k: int)
    ensures k in Collect(es, side).oi <==> exists i | 0 <= i < |es| :: Quotes(es[i], side, k)
  {
    if es != [] {
      var n := |es| - 1;
      CollectKeys(es[..n], side, k);
      assert Collect(es, side) == Write(Collect(es[..n], side), es[n], side);
      if exists i | 0 <= i < |es| :: Quotes(es[i], side, k) {
        var i :| 0 <= i < |es| && Quotes(es[i], side, k);
        if i < n {
          assert Quotes(es[..n][i], side, k);
        }
      }
      if exists i | 0 <= i < n :: Quotes(es[..n][i], side, k) {
        var i :| 0 <= i < n && Quotes(es[..n][i], side, k);
        assert Quotes(es[i], side, k);
      }
    }
  }

  /** Last write wins: a strike holds the open interest of the last entry
      that quotes it on that side. */
  lemma {:induction false} CollectLastWriteWins(es: seq<Entry>, side: Side, i: int)
    requires 0 <= i < |es| && LegOf(es[i], side).Some?
    requires forall j | i < j < |es| :: !Quotes(es[j], side, es[i].strikePrice)
    ensures es[i].strikePrice in Collect(es, side).oi
    ensures Collect(es, side).oi[es[i].strikePrice] == LegOf(es[i], side).value.openInterest
  {
    var n := |es| - 1;
    if i < n {
      CollectLastWriteWins(es[..n], side, i);
      assert !Quotes(es[n], side, es[i].strikePrice);
    }
  }

  /** Index of the first entry that quotes `k` on `side`; `|es|` if none. */
  ghost function FirstIndex(es: seq<Entry>, side: Side, k: int): (r: nat)
    ensures r <= |es|
    ensures r < |es| ==> Quotes(es[r], side, k)
    ensures forall j | 0 <= j < r :: !Quotes(es[j], side, k)
  {
    if es == [] then 0
    else if Quotes(es[0], side, k) then 0
    else 1 + FirstIndex(es[1..], side, k)
  }

  /** A strike first quoted within a prefix is first quoted at the same
      place in the whole sequence. */
  lemma FirstIndexPrefix(es: seq<Entry>, n: nat, side: Side, k: int)
    requires n <= |es|
    requires FirstIndex(es[..n], side, k) < n
    ensures FirstIndex(es, side, k) == FirstIndex(es[..n], side, k)
  {
  }

  /** A strike the last entry adds to the dict is first quoted there. */
  lemma FirstIndexOfNewStrike(es: seq<Entry>, side: Side)
    requires es != [] && LegOf(es[|es| - 1], side).Some?
    requires es[|es| - 1].strikePrice !in Collect(es[..|es| - 1], side).oi
    ensures FirstIndex(es, side, es[|es| - 1].strikePrice) == |es| - 1
  {
    var n, k := |es| - 1, es[|es| - 1].strikePrice;
    CollectKeys(es[..n], side, k);
    assert forall j | 0 <= j < n :: !Quotes(es[..n][j], side, k);
    assert forall j | 0 <= j < n :: es[..n][j] == es[j];
    assert Quotes(es[n], side, k);
  }

  /** Every strike of `order` is quoted in `es`, and `order` lists the
      strikes by the position of their first quoting entry. */
  ghost predicate FirstQuoteOrdered(es: seq<Entry>, side: Side, order: seq<int>)
  {
    && (forall a | 0 <= a < |order| :: FirstIndex(es, side, order[a]) < |es|)
    && (forall a, b | 0 <= a < b < |order| :: FirstIndex(es, side, order[a]) < FirstIndex(es, side, order[b]))
  }

  /** Keys iterate in the order of their first occurrence in the data:
      an overwrite never moves a strike. */
  lemma {:induction false} CollectOrder(es: seq<Entry>, side: Side)
    ensures FirstQuoteOrdered(es, side, Collect(es, side).order)
  {
    if es != [] {
      var n := |es| - 1;
      var prev := Collect(es[..n], side);
      var m := Collect(es, side);
      assert m == Write(prev, es[n], side);
      CollectOrder(es[..n], side);
      forall a | 0 <= a < |prev.order|
        ensures FirstIndex(es, side, prev.order[a]) == FirstIndex(es[..n], side, prev.order[a])
      {
        FirstIndexPrefix(es, n, side, prev.order[a]);
      }
      if LegOf(es[n], side).Some? && es[n].strikePrice !in prev.oi {
        assert m.order == prev.order + [es[n].strikePrice];
        FirstIndexOfNewStrike(es, side);
        forall a | 0 <= a < |m.order|
          ensures FirstIndex(es, side, m.order[a]) <= n
        {
          if a < |prev.order| {
            assert m.order[a] == prev.order[a];
          }
        }
        forall a, b | 0 <= a < b < |m.order|
          ensures FirstIndex(es, side, m.order[a]) < FirstIndex(es, side, m.order[b])
        {
          assert m.order[a] == prev.order[a];
          if b < |prev.order| {
            assert m.order[b] == prev.order[b];
          }
        }
      } else {
        assert m.order == prev.order;
      }
    }
  }

  /** Sum of the open interest of every leg on `side`, one term per entry. */
  function RawSum(es: seq<Entry>, side: Side): (s: int)
  {
    if es == [] then 0
    else
      var n := |es| - 1;
      RawSum(es[..n], side) + match LegOf(es[n], side) case None => 0 case Some(leg) => leg.openInterest
  }

  /** No strike is quoted twice on `side`. */
  ghost predicate DistinctStrikes(es: seq<Entry>, side: Side)
  {
    forall i, j | 0 <= i < j < |es| && LegOf(es[i], side).Some? && LegOf(es[j], side).Some? ::
      es[i].strikePrice != es[j].strikePrice
  }

  /** When no strike is quoted twice on a side, the dict total is the sum
      over all entries. */
  lemma {:induction false} TotalOfDistinctStrikes(es: seq<Entry>, side: Side)
    requires DistinctStrikes(es, side)
    ensures Total(Collect(es, side)) == RawSum(es, side)
  {
    if es != [] {
      var n := |es| - 1;
      var pre := es[..n];
      assert forall i | 0 <= i < n :: pre[i] == es[i];
      TotalOfDistinctStrikes(pre, side);
      var prev := Collect(pre, side);
      if LegOf(es[n], side).None? {
        assert Collect(es, side) == prev;
        assert RawSum(es, side) == RawSum(pre, side);
      } else {
        var k, v := es[n].strikePrice, LegOf(es[n], side).value.openInterest;
        assert RawSum(es, side) == RawSum(pre, side) + v;
        assert k !in prev.oi by {
          CollectKeys(pre, side, k);
        }
        assert Collect(es, side) == prev.Set(k, v);
        TotalAfterSet(prev, k, v);
      }
    }
  }


  /** A repeated strike is counted once, with its last value. */
  lemma DuplicateStrikeCountedOnce(k: int, v1: int, v2: int)
    ensures var es := [Entry(k, Some(Leg(v1)), None), Entry(k, Some(Leg(v2)), None)];
      Total(Collect(es, CE)) == v2 && RawSum(es, CE) == v1 + v2
  {
    var e1, e2 := Entry(k, Some(Leg(v1)), None), Entry(k, Some(Leg(v2)), None);
    var es := [e1, e2];
    assert es[..1] == [e1];
    assert [e1][..0] == [];
    assert Collect([], CE) == Empty;
    var first := Collect([e1], CE);
    assert first == Empty.Set(k, v1);
    assert first.order == [k];
    var m := Collect(es, CE);
    assert m == first.Set(k, v2);
    assert m.order == [k] && m.oi[k] == v2;
    assert m.order[..0] == [];
    assert SumOf([], m.oi) == 0;
    assert Total(m) == v2;
    assert RawSum([], CE) == 0;
    assert RawSum([e1], CE) == v1;
  }

  /** Some entry of `es` quotes `k` on `side`. */
  ghost predicate QuotedIn(es: seq<Entry>, side: Side, k: int)
  {
    es != [] && (Quotes(es[0], side, k) || QuotedIn(es[1..], side, k))
  }

  /** The open interest of the last entry quoting `k` on `side`; 0 if none. */
  ghost function LastOf(es: seq<Entry>, side: Side, k: int): (v: int)
  {
    if es == [] then 0
    else if Quotes(es[0], side, k) && !QuotedIn(es[1..], side, k) then LegOf(es[0], side).value.openInterest
    else LastOf(es[1..], side, k)
  }

  /** Sum over the entries that are the last to quote their strike on
      `side`: every quoted strike contributes its last value, once. */
  ghost function LastSum(es: seq<Entry>, side: Side): (s: int)
  {
    if es == [] then 0
    else
      var e := es[0];
      (if LegOf(e, side).Some? && !QuotedIn(es[1..], side, e.strikePrice) then LegOf(e, side).value.openInterest else 0)
      + LastSum(es[1..], side)
  }

  lemma {:induction false} QuotedInSnoc(es: seq<Entry>, e: Entry, side: Side, k: int)
    ensures QuotedIn(es + [e], side, k) == (QuotedIn(es, side, k) || Quotes(e, side, k))
  {
    if es != [] {
      assert (es + [e])[1..] == es[1..] + [e];
      QuotedInSnoc(es[1..], e, side, k);
    } else {
      assert ([e])[1..] == [];
    }
  }

  lemma {:induction false} LastOfUnquoted(es: seq<Entry>, side: Side, k: int)
    requires !QuotedIn(es, side, k)
    ensures LastOf(es, side, k) == 0
  {
    if es != [] {
      LastOfUnquoted(es[1..], side, k);
    }
  }

  lemma {:induction false} LastOfSnoc(es: seq<Entry>, e: Entry, side: Side, k: int)
    ensures LastOf(es + [e], side, k) ==
      if Quotes(e, side, k) then LegOf(e, side).value.openInterest else LastOf(es, side, k)
  {
    if es == [] {
      assert ([e])[1..] == [];
    } else {
      assert (es + [e])[1..] == es[1..] + [e];
      QuotedInSnoc(es[1..], e, side, k);
      LastOfSnoc(es[1..], e, side, k);
    }
  }

  /** Appending an entry with a leg adds its value and retires the value
      its strike had before. */
  lemma {:induction false} LastSumSnoc(es: seq<Entry>, e: Entry, side: Side)
    ensures LastSum(es + [e], side) == LastSum(es, side) +
      if LegOf(e, side).Some? then LegOf(e, side).value.openInterest - LastOf(es, side, e.strikePrice) else 0
  {
    if es == [] {
      assert ([e])[1..] == [];
    } else {
      var x, rest := es[0], es[1..];
      assert (es + [e])[1..] == rest + [e];
      LastSumSnoc(rest, e, side);
      QuotedInSnoc(rest, e, side, x.strikePrice);
      if LegOf(e, side).Some? && !QuotedIn(rest, side, e.strikePrice) {
        LastOfUnquoted(rest, side, e.strikePrice);
      }
    }
  }

  /** The value the dict holds for a strike is the last one quoted. */
  lemma {:induction false} CollectIsLastOf(es: seq<Entry>, side: Side, k: int)
    ensures k in Collect(es, side).oi <==> QuotedIn(es, side, k)
    ensures k in Collect(es, side).oi ==> Collect(es, side).oi[k] == LastOf(es, side, k)
  {
    if es != [] {
      var n := |es| - 1;
      assert es == es[..n] + [es[n]];
      CollectIsLastOf(es[..n], side, k);
      QuotedInSnoc(es[..n], es[n], side, k);
      LastOfSnoc(es[..n], es[n], side, k);
    }
  }

  /** `sum(d.values())` after the loop: each strike quoted on `side`
      counts once, with the open interest of its last entry. */
  lemma {:induction false} TotalIsLastSum(es: seq<Entry>, side: Side)
    ensures Total(Collect(es, side)) == LastSum(es, side)
  {
    if es != [] {
      var n := |es| - 1;
      var pre, e := es[..n], es[n];
      assert es == pre + [e];
      TotalIsLastSum(pre, side);
      LastSumSnoc(pre, e, side);
      if LegOf(e, side).Some? {
        CollectIsLastOf(pre, side, e.strikePrice);
        if !QuotedIn(pre, side, e.strikePrice) {
          LastOfUnquoted(pre, side, e.strikePrice);
        }
        TotalAfterSet(Collect(pre, side), e.strikePrice, LegOf(e, side).value.openInterest);
      }
    }
  }
}
