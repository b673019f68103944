# Open-interest metrics of an intraday option-chain service

This project models the computational core of a small service that fetches
NSE option-chain data for NIFTY and BANKNIFTY, reduces each chain to four
numbers, and asks a text-generation service to write social-media posts
about them. The model covers two pieces of `app.py`:

- the check `fetch_option_chain` makes on the provider's reply: the status
  must be 200 and the decoded body must have a `records` key
  (`market_data.dfy`);
- `process_data`, which reads `records.data` and `records.underlyingValue`,
  builds two strike -> open-interest dicts (calls from `CE` legs, puts from
  `PE` legs) in a loop, picks the strike with the largest call open
  interest (resistance) and the strike with the largest put open interest
  (support), sums both dicts and returns the put/call ratio with the spot
  price (`metrics.dfy`).

Layout:

- `wrappers.dfy`: `Option` and `Result`.
- `strike_maps.dfy`: a Python dict from strike to open interest. The value
  `StrikeMap` keeps the key table and the first-insertion order in which a
  Python dict iterates; `StrikeMap.Set` is item assignment. The class
  `StrikeDict` is the dict object the loop mutates in place, and
  `View()` gives its value. `MaxKey` is `max(d, key=d.get)`, a left-to-right
  scan that replaces its candidate only on a strictly larger value.
  `Total` is `sum(d.values())`.
- `option_chain.dfy`: the payload (`Entry`, `Leg`, `Records`, `Body`) and
  `Collect`, the dict the loop has built after a prefix of the entries,
  with its key set, last-write-wins, iteration order and totals proved.
- `market_data.dfy`: the status and `records` check.
- `metrics.dfy`: `Summarize` (the pure tail of `process_data`: `max`,
  `sum`, the ratio), `Compute`, the specification of `process_data` (its
  result or the exception it raises), and `ProcessData`, the loop over the
  entries with two `StrikeDict` objects, proved equal to `Compute`.

The put/call ratio is the exact quotient `total_put / total_call` as a
real number. Errors come in the order the code raises them: no usable
`records` object, then `max` over an empty call dict, then `max` over an
empty put dict, then division by a zero call total. A zero call total can
occur with a non-empty call dict, when all call open interest is zero.

Points where the behaviour follows from Python rather than from anything
the code spells out:

- `max(d, key=d.get)` returns the first maximal key in dict iteration
  order, which is the order in which strikes first appear with a leg on
  that side (`MaxStrikeTieBreak`).
- Both `max` calls raise the same `ValueError` on an empty dict; the call
  side is reached first, and `MetricsError` tells the two apart by the
  line that raises. The division raises a separate `ZeroDivisionError`.
- A repeated strike overwrites its earlier value without moving in the
  iteration order; totals count it once, with its last value
  (`TotalIsLastSum`, `TotalOfDistinctStrikes`,
  `DuplicateStrikeCountedOnce`).

## Model

| member | source | states |
|---|---|---|
| `StrikeMaps.StrikeMap.Set` | app.py:61-64 | item assignment keeps the dict well formed (each key once in the order, order lists exactly the keys), maps the key to the new value, keeps the existing order as a prefix and appends only a new key |
| `StrikeMaps.StrikeDict.constructor` | app.py:56-57 | a new dict is empty |
| `StrikeMaps.StrikeDict.Set` | app.py:62 | assigning `d[strike]` changes the dict object to the value `StrikeMap.Set` gives |
| `StrikeMaps.MaxIndex` | app.py:66-67 | the scan of `max` over the keys stops at a position whose value is at least every other value and strictly above the value of every earlier key |
| `StrikeMaps.FirstMaxUnique` | app.py:66-67 | at most one position is the first maximal one, so the tie-break determines the result |
| `StrikeMaps.MaxKey` | app.py:66-67 | `max(d, key=d.get)` fails exactly on an empty dict; otherwise it returns a key of the dict whose value is at least every value, and the first such key in iteration order |
| `StrikeMaps.Total` | app.py:69-70 | `sum(d.values())` is zero for an empty dict and, when no value is negative, at least each value in the dict |
| `StrikeMaps.TotalAfterSet` | app.py:69-70 | after `d[k] = v` the sum of values grows by `v` minus the value `k` held before (nothing if `k` was new): an overwrite replaces, it does not add |
| `OptionChain.Write` | app.py:61-64 | one loop iteration for one side keeps the dict well formed; an entry without a leg on that side leaves the dict unchanged; an entry with one maps its strike to the leg's open interest; a strike already present keeps its place in the order, and a new strike is appended at the end of the order |
| `OptionChain.Collect` | app.py:59-64 | the dict built from any prefix of the entries is well formed |
| `OptionChain.CollectKeys` | app.py:59-64 | a strike is a key of the call (put) dict if and only if some entry with that strike has a `CE` (`PE`) leg |
| `OptionChain.CollectLastWriteWins` | app.py:61-64 | a strike holds the open interest of the last entry that quotes it on that side |
| `OptionChain.CollectOrder` | app.py:59-64 | the dict iterates its strikes in the order of their first quoting entry, so an overwrite never moves a strike |
| `OptionChain.TotalIsLastSum` | app.py:59-70 | the total of the dict after the loop equals the sum, over the entries that are the last to quote their strike on that side, of their open interest: every quoted strike counts once, with its last value |
| `OptionChain.TotalOfDistinctStrikes` | app.py:59-70 | when no strike is quoted twice on a side, the dict total equals the sum of the open interest of every leg on that side |
| `OptionChain.DuplicateStrikeCountedOnce` | app.py:59-70 | two entries with the same strike contribute only the second value to the total, not the sum of both |
| `MarketData.CheckResponse` | app.py:41-50 | a reply is accepted if and only if its status is 200 and its body has `records`; the status is checked first; an accepted body is returned unchanged |
| `Metrics.Summarize` | app.py:66-77 | over the finished dicts: fails on an empty call dict, on an empty put dict when the call dict is not empty, and on a zero call total when neither is empty, each exactly then, and succeeds exactly when none of these holds; on success it returns spot unchanged, the ratio put total over call total, and as the two strikes the first maximal keys of the call and put dicts |
| `Metrics.Compute` | app.py:52-78 | fails with `NoRecords` exactly when the body has no `records` object; otherwise it applies `Summarize` to the two dicts the loop builds, so a successful result carries `records.underlyingValue` unchanged as spot |
| `Metrics.AddEntry` | app.py:60-64 | one pass of the loop body changes the call dict object exactly as `Write` does with the entry's `CE` leg and the put dict object as `Write` does with its `PE` leg, and touches nothing else |
| `Metrics.ProcessData` | app.py:52-78 | the loop that fills two dict objects in place, followed by `max`, `sum` and the division, returns exactly what `Compute` specifies |
| `Metrics.EmptyCallIffNoCallLeg` | app.py:59-66 | the call-side `max` fails exactly when no entry has a `CE` leg |
| `Metrics.EmptyPutIffNoPutLeg` | app.py:59-67 | the put-side `max` fails exactly when some entry has a `CE` leg and none has a `PE` leg |
| `Metrics.MaxStrikeTieBreak` | app.py:59-67 | the strike `max` picks is quoted by some entry, and any other strike with the same open interest is first quoted later in `records.data` |
| `Metrics.ResistanceAndSupportTieBreak` | app.py:66-77 | resistance and support both follow that first-occurrence tie-break |
| `Metrics.CheckedBodyHasRecords` | app.py:47-53 | documents the link between the response check and `process_data`, and follows from the two definitions: after the check accepts a body, `process_data` fails for lack of `records` only when the `records` value is not an object of the expected shape |
| `Metrics.ZeroCallTotalExample` | app.py:66-71 | a single strike whose call leg has zero open interest passes both `max` calls and then fails on the division by a zero call total |
| `Metrics.TwoStrikeExample` | app.py:52-78 | strikes 100 (CE 500, PE 300) and 110 (CE 200, PE 900) at spot 105.3 give ratio 1200/700, resistance 100, support 110 |

## Left out

- The HTTP session, the cookie bootstrap GET, headers and timeouts (app.py:18-19, 33-39): network I/O. The status code and decoded body are inputs to `CheckResponse`.
- JSON decoding of the reply (`response.json()`, app.py:44): a body that is not JSON, or not a JSON object, is not modelled; the body is a map from key to value.
- Missing fields below `records`: entries always have an integer `strikePrice`, a `CE`/`PE` leg always has an integer `openInterest`, and `records` always has `underlyingValue`. The KeyError or TypeError the code raises for those is not modelled, except that a `records` value of any other shape fails as `NoRecords`.
- Metrics.Summarize: the ratio is the exact real quotient; `round(..., 2)` on a float (app.py:71) and floating-point `spot` and open interest are not modelled.
- The text-generation client and the prompt built in `generate_post` (app.py:9-10, 80-108): a foreign call, and the prompt depends on Python's number formatting.
- The Flask routes `/` and `/run` (app.py:110-127): web framework plumbing.
