# Coffee-order slot filling, modelled in Dafny

The barista voice agent (`backend/src/agent.py`) collects a coffee order over a
conversation. It keeps one live order record with four optional scalar fields
(`drinkType`, `size`, `milk`, `name`) and an `extras` list. The language model
calls two tools. `update_order` stores every truthy argument and appends the
extras. `finish_order` checks that the order is complete. If it is, the tool
saves the order to a single file, sends it over the data channel, resets the
record and returns the snapshot. If it is not, the tool returns an error.

The project has three modules:

- `Wrappers` (`option.dfy`): `Option`, standing for Python's `None` versus a set value.
- `OrderRecord` (`order.dfy`): the order as a value. It defines the completeness
  predicate and `Apply`, the effect of one `update_order` call on values, with `ApplyEffect` stating what one call does. It also
  defines `ApplyAll`, a sequence of calls in call order, and the lemmas about
  these functions: last write wins, append-only extras, idempotence, and when a
  run of updates makes an order complete.
- `Barista` (`barista.dfy`): the live record as the class `OrderState`. Its
  fields are assigned in place by `UpdateOrder` and `FinishOrder`, which are
  specified by the functions of `OrderRecord`. `lastSaved` is the single order
  file that every save overwrites. The ghost `sent` is the log of delivered
  notifications. `LatteConversation` is a client that drives one whole
  conversation through the class and checks the outcome.

Python truthiness is written out. A string argument counts only when it is
`Some(s)` with `s != ""` (`Supplied`). An extras list counts only when it is
non-empty (`Fragment`). The file write and the data-channel send are foreign
calls. They become the boolean outcome parameters of `FinishOrder`. A failure
ends the call where the Python exception would propagate.

## Model

| member | source | states |
|---|---|---|
| `OrderRecord.CompleteIffAllSet` | backend/src/agent.py:35-41 | an order is complete iff all four scalar fields are set, in both directions; replacing `extras` by any list never changes completeness |
| `OrderRecord.ApplyEffect` | backend/src/agent.py:101-114 | one update stores a truthy scalar argument and leaves the field alone otherwise; extras become the old list followed by the supplied fragment; a complete order stays complete; no scalar ever becomes the empty string |
| `OrderRecord.ScalarUpdateIdempotent` | backend/src/agent.py:101-109 | repeating a call that carries no extras leaves the record as the first call left it |
| `OrderRecord.RepeatedExtrasDuplicate` | backend/src/agent.py:110-111 | repeating a call that carries extras sets the same scalars but appends the extras a second time |
| `OrderRecord.ExtrasAccumulate` | backend/src/agent.py:110-111 | after any run of calls, extras are the starting extras followed by every supplied fragment in call order, duplicates kept |
| `OrderRecord.UnsuppliedUnchanged` | backend/src/agent.py:101-114 | a scalar field that no call supplies keeps its starting value |
| `OrderRecord.LastWriteWins` | backend/src/agent.py:101-114 | a scalar field ends up holding the value of the last call that supplied it truthily |
| `OrderRecord.LastSupplyExists` | backend/src/agent.py:101-114 | if any call supplies a field, one of them is the last to do so |
| `OrderRecord.CompleteAfterUpdates` | backend/src/agent.py:35-41 | from the empty record, a run of updates yields a complete order iff drink, size, milk and name are each supplied by some call |
| `OrderRecord.FragmentsSnoc` | backend/src/agent.py:110-111 | the extras of a run with one more call are the run's extras followed by that call's fragment |
| `Barista.OrderState.constructor` | backend/src/agent.py:27-33 | at program start the record has all scalars `None` and no extras, and holds no empty-string scalar; the order file keeps whatever it held |
| `Barista.OrderState.UpdateOrder` | backend/src/agent.py:89-117 | the new record is `Apply` of the old one; the returned value is the whole new record; nothing is saved or sent; a record without empty-string scalars keeps that property |
| `Barista.OrderState.FinishOrder` | backend/src/agent.py:120-152 | incomplete: returns "Order is not complete yet." and changes nothing. Complete: the save (lines 43-47) overwrites the file with the record, then the notification `{type: order_complete, order}` goes out reliably on topic `order_complete`, then the record resets to empty and the pre-call snapshot is returned. A failed save changes nothing; a failed send leaves the order saved but not reset. A record without empty-string scalars keeps that property |

## Left out

- The file system work of `save_order` (creating `orders/`, writing JSON with
  two-space indentation, the console print) is modelled only as the single
  overwritten slot `lastSaved`. A failed save leaves that slot unchanged, while
  a real failure after `open(..., "w")` may leave a truncated file.
- The LiveKit data channel, JSON and UTF-8 encoding of the payload: the send is
  a success or failure parameter, and the delivered payload is recorded in the
  ghost log `sent`.
- `print` of the updated order, `prewarm`, `entrypoint`, the session's speech,
  language and voice models, metrics and `cli.run_app`: SDK wiring and I/O.
- The instruction prompt, including its list of available extras: the code
  never checks values against it, so the model accepts any string.
- `async`/`await` and the process-wide sharing of the record: the tools are
  sequential methods on one object, and no concurrency is modelled.
- `Barista.OrderState.UpdateOrder` returns a copy of the record, whereas the
  source returns the live dictionary itself. Later changes to the record are
  therefore not visible through the returned value.
- Argument types: the model takes string scalars and a list of strings for
  extras. Values of other Python types, which the tool signature does not
  enforce, are not modelled.
- The frontend components (receipt and wellness rendering, data-channel
  listeners) and the wellness check-in variant, which `backend/src/agent.py` does not implement.

Two consequences of the code worth stating:

- Completeness tests `is not None`, so a field holding `""` would count as set.
  `update_order` never stores `""`. The constructor establishes `WellFormed` and
  both tools preserve it, so no record reached through the tools holds one.
- Repeated identical updates are idempotent only without extras. Extras are
  appended again on every call (`RepeatedExtrasDuplicate`).
