/** `process_data` (app.py, lines 52-78): from one symbol's option chain,
    the spot price, the put/call open-interest ratio, the call strike with
    the largest open interest (resistance) and the put strike with the
    largest open interest (support). */
module Metrics {
  import opened Wrappers
  import opened StrikeMaps
  import opened OptionChain
  import opened MarketData

  /** The dict `process_data` returns. `pcr` is the exact quotient, before
      rounding. */
  datatype SymbolMetrics = SymbolMetrics(spot: real, pcr: real, maxCallStrike: int, maxPutStrike: int)

  /** The exceptions `process_data` can raise, in the order it can raise them. */
  datatype MetricsError =
    | NoRecords        // `data['records']['data']` fails: no usable `records` object
    | EmptyCallOi      // ValueError from `max` over an empty call dict
    | EmptyPutOi       // the same ValueError, from `max` over an empty put dict
    | ZeroCallTotal    // ZeroDivisionError from `total_put / total_call`

  predicate HasRecords(body: Body)
  {
    "records" in body && body["records"].RecordsObject?
  }

  /** Lines 66-77 over the finished dicts: both `max` calls, both sums,
      the division, and the returned dict. */
  function Summarize(spot: real, calls: StrikeMap, puts: StrikeMap): (r: Result<SymbolMetrics, MetricsError>)
    requires calls.Valid() && puts.Valid()
    ensures r == Failure(EmptyCallOi) <==> calls.oi == map[]
    ensures r == Failure(EmptyPutOi) <==> calls.oi != map[] && puts.oi == map[]
    ensures r == Failure(ZeroCallTotal) <==> calls.oi != map[] && puts.oi != map[] && Total(calls) == 0
    ensures r.Success? <==> calls.oi != map[] && puts.oi != map[] && Total(calls) != 0
    ensures r.Success? ==>
      && r.value.spot == spot
      && Total(calls) != 0
      && r.value.pcr == Total(puts) as real / Total(calls) as real
      && IsArgMax(calls, r.value.maxCallStrike)
      && IsArgMax(puts, r.value.maxPutStrike)
  {
    match (MaxKey(calls), MaxKey(puts))
    case (None, _) => Failure(EmptyCallOi)
    case (_, None) => Failure(EmptyPutOi)
    case (Some(maxCall), Some(maxPut)) =>
      var totalCall, totalPut := Total(calls), Total(puts);
      if totalCall == 0 then Failure(ZeroCallTotal)
      else Success(SymbolMetrics(spot, totalPut as real / totalCall as real, maxCall, maxPut))
  }

  /** What `process_data` computes, or the exception it raises. */
  function Compute(body: Body): (r: Result<SymbolMetrics, MetricsError>)
    ensures !HasRecords(body) <==> r == Failure(NoRecords)
    ensures r.Success? ==> r.value.spot == body["records"].records.underlyingValue
  {
    if !HasRecords(body) then Failure(NoRecords)
    else
      var rec := body["records"].records;
      Summarize(rec.underlyingValue, Collect(rec.data, CE), Collect(rec.data, PE))
  }

  /** One iteration of the loop: the entry's `CE` leg goes into the call
      dict and its `PE` leg into the put dict. */
  method AddEntry(callOi: StrikeDict, putOi: StrikeDict, item: Entry)
    requires callOi != putOi
    modifies callOi, putOi
    ensures callOi.View() == Write(old(callOi.View()), item, CE)
    ensures putOi.View() == Write(old(putOi.View()), item, PE)
  {
    var strike := item.strikePrice;
    if item.ce.Some? {
      callOi.Set(strike, item.ce.value.openInterest);
    }
    if item.pe.Some? {
      putOi.Set(strike, item.pe.value.openInterest);
    }
  }

  /** The loop over `records` fills two dicts in place; `max`, `sum` and
      the division then read them. */
  method ProcessData(body: Body) returns (r: Result<SymbolMetrics, MetricsError>)
    ensures r == Compute(body)
  {
    if !HasRecords(body) {
      return Failure(NoRecords);
    }
    var records := body["records"].records.data;
    var spot := body["records"].records.underlyingValue;

    var callOi := new StrikeDict();
    var putOi := new StrikeDict();

    var i := 0;
    while i < |records|
      invariant 0 <= i <= |records|
      invariant callOi.View() == Collect(records[..i], CE)
      invariant putOi.View() == Collect(records[..i], PE)
      invariant callOi != putOi
    {
      AddEntry(callOi, putOi, records[i]);
      assert records[..i + 1][..i] == records[..i];
      i := i + 1;
    }
    assert records[..i] == records;
    r := Summarize(spot, callOi.View(), putOi.View());
  }

  /** `max` fails on the call side exactly when no entry has a `CE` leg. */
  lemma EmptyCallIffNoCallLeg(body: Body)
    requires HasRecords(body)
    ensures var es := body["records"].records.data;
      Compute(body) == Failure(EmptyCallOi) <==> forall i | 0 <= i < |es| :: es[i].ce.None?
  {
    var es := body["records"].records.data;
    var calls := Collect(es, CE);
    if forall i | 0 <= i < |es| :: es[i].ce.None? {
      forall k ensures k !in calls.oi {
        CollectKeys(es, CE, k);
      }
    } else {
      var i :| 0 <= i < |es| && es[i].ce.Some?;
      CollectKeys(es, CE, es[i].strikePrice);
      assert Quotes(es[i], CE, es[i].strikePrice);
    }
  }

  /** `max` fails on the put side exactly when some entry has a `CE` leg
      and none has a `PE` leg. */
  lemma EmptyPutIffNoPutLeg(body: Body)
    requires HasRecords(body)
    ensures var es := body["records"].records.data;
      Compute(body) == Failure(EmptyPutOi) <==>
        (exists i | 0 <= i < |es| :: es[i].ce.Some?) && forall i | 0 <= i < |es| :: es[i].pe.None?
  {
    var es := body["records"].records.data;
    EmptyCallIffNoCallLeg(body);
    var puts := Collect(es, PE);
    if forall i | 0 <= i < |es| :: es[i].pe.None? {
      forall k ensures k !in puts.oi {
        CollectKeys(es, PE, k);
      }
    } else {
      var i :| 0 <= i < |es| && es[i].pe.Some?;
      CollectKeys(es, PE, es[i].strikePrice);
      assert Quotes(es[i], PE, es[i].strikePrice);
    }
  }

  /** The strike `max` picks is quoted in the data, and among strikes with
      the same open interest it is the one quoted first. */
  lemma MaxStrikeTieBreak(es: seq<Entry>, side: Side, s: int)
    requires MaxKey(Collect(es, side)) == Some(s)
    ensures exists i | 0 <= i < |es| :: Quotes(es[i], side, s)
    ensures var m := Collect(es, side);
      forall k | k in m.oi && k != s && m.oi[k] == m.oi[s] ::
        FirstIndex(es, side, s) < FirstIndex(es, side, k)
  {
    var m := Collect(es, side);
    CollectKeys(es, side, s);
    CollectOrder(es, side);
    var i :| FirstMaxAt(m.order, m.oi, i) && m.order[i] == s;
    forall k | k in m.oi && k != s && m.oi[k] == m.oi[s]
      ensures FirstIndex(es, side, s) < FirstIndex(es, side, k)
    {
      var j :| 0 <= j < |m.order| && m.order[j] == k;
      assert j != i;
      assert !(j < i);
    }
  }

  /** Resistance and support follow the first-occurrence tie-break over
      the entries of `records.data`. */
  lemma ResistanceAndSupportTieBreak(body: Body)
    requires Compute(body).Success?
    ensures var es, r := body["records"].records.data, Compute(body).value;
      var calls, puts := Collect(es, CE), Collect(es, PE);
      && (forall k | k in calls.oi && k != r.maxCallStrike && calls.oi[k] == calls.oi[r.maxCallStrike] ::
            FirstIndex(es, CE, r.maxCallStrike) < FirstIndex(es, CE, k))
      && (forall k | k in puts.oi && k != r.maxPutStrike && puts.oi[k] == puts.oi[r.maxPutStrike] ::
            FirstIndex(es, PE, r.maxPutStrike) < FirstIndex(es, PE, k))
  {
    var es, r := body["records"].records.data, Compute(body).value;
    MaxStrikeTieBreak(es, CE, r.maxCallStrike);
    MaxStrikeTieBreak(es, PE, r.maxPutStrike);
  }

  /** A body that passed the response check reaches the loop unless its
      `records` value is not an object of the expected shape. */
  lemma CheckedBodyHasRecords(status: int, body: Body)
    requires CheckResponse(status, body).Success?
    ensures Compute(CheckResponse(status, body).value) == Failure(NoRecords) <==> body["records"].OtherValue?
  {
  }

  /** Success as `Compute` unfolds it: both `max` calls return and the
      call total is not zero. */
  lemma ComputeSucceeds(body: Body, maxCall: int, maxPut: int, totalCall: int, totalPut: int)
    requires HasRecords(body)
    requires MaxKey(Collect(body["records"].records.data, CE)) == Some(maxCall)
    requires MaxKey(Collect(body["records"].records.data, PE)) == Some(maxPut)
    requires Total(Collect(body["records"].records.data, CE)) == totalCall != 0
    requires Total(Collect(body["records"].records.data, PE)) == totalPut
    ensures Compute(body) == Success(SymbolMetrics(body["records"].records.underlyingValue,
      totalPut as real / totalCall as real, maxCall, maxPut))
  {
  }

  /** The dict built from two entries with distinct strikes, both quoted
      on `side`. */
  lemma CollectTwo(e1: Entry, e2: Entry, side: Side)
    requires LegOf(e1, side).Some? && LegOf(e2, side).Some? && e1.strikePrice != e2.strikePrice
    ensures Collect([e1, e2], side) ==
      StrikeMap([e1.strikePrice, e2.strikePrice],
                map[e1.strikePrice := LegOf(e1, side).value.openInterest,
                    e2.strikePrice := LegOf(e2, side).value.openInterest])
  {
    assert [e1, e2][..1] == [e1] && [e1][..0] == [];
    assert Collect([], side) == Empty;
    assert Collect([e1], side) == Empty.Set(e1.strikePrice, LegOf(e1, side).value.openInterest);
  }

  /** `max` and `sum` over a two-key dict. */
  lemma MaxAndTotalOfTwo(a: int, b: int, va: int, vb: int)
    requires a != b
    ensures var m := StrikeMap([a, b], map[a := va, b := vb]);
      m.Valid() && MaxKey(m) == Some(if vb > va then b else a) && Total(m) == va + vb
  {
    var m := StrikeMap([a, b], map[a := va, b := vb]);
    assert m.order[..1] == [a] && [a][..0] == [];
    assert MaxIndex([a], m.oi) == 0;
    assert SumOf([a], m.oi) == va;
  }

  /** Two strikes, spot 105.3: ratio (300 + 900) / (500 + 200), resistance
      100, support 110. */
  lemma TwoStrikeExample()
    ensures var es := [Entry(100, Some(Leg(500)), Some(Leg(300))), Entry(110, Some(Leg(200)), Some(Leg(900)))];
      Compute(map["records" := RecordsObject(Records(105.3, es))])
        == Success(SymbolMetrics(105.3, 1200 as real / 700 as real, 100, 110))
  {
    var e1, e2 := Entry(100, Some(Leg(500)), Some(Leg(300))), Entry(110, Some(Leg(200)), Some(Leg(900)));
    var body := map["records" := RecordsObject(Records(105.3, [e1, e2]))];
    assert body["records"].records.data == [e1, e2];
    CollectTwo(e1, e2, CE);
    CollectTwo(e1, e2, PE);
    MaxAndTotalOfTwo(100, 110, 500, 200);
    MaxAndTotalOfTwo(100, 110, 300, 900);
    ComputeSucceeds(body, 100, 110, 700, 1200);
  }

  /** A call leg with zero open interest gives a non-empty call dict whose
      total is zero: the division fails although both `max` calls succeed. */
  lemma ZeroCallTotalExample(spot: real, strike: int, putOi: int)
    ensures Compute(map["records" := RecordsObject(Records(spot, [Entry(strike, Some(Leg(0)), Some(Leg(putOi)))]))])
      == Failure(ZeroCallTotal)
  {
    var e := Entry(strike, Some(Leg(0)), Some(Leg(putOi)));
    var body := map["records" := RecordsObject(Records(spot, [e]))];
    var calls, puts := Collect([e], CE), Collect([e], PE);
    assert [e][..0] == [] && Collect([], CE) == Empty && Collect([], PE) == Empty;
    assert calls == StrikeMap([strike], map[strike := 0]);
    assert strike in puts.oi;
    assert Total(calls) == 0 by {
      assert calls.order[..0] == [] && SumOf([], calls.oi) == 0;
    }
    assert Compute(body) == Summarize(spot, calls, puts) by {
      assert body["records"].records.data == [e];
    }
  }
}
