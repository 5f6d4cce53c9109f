# Server-room monitor and printer sale pricing, in Dafny

The repository holds two small Java teaching examples, and this project models
the logic of both as immutable datatypes and pure functions.

- `server_room_monitor.dfy`, module `ServerRoomMonitor`, models the observer
  example. A `TemperatureSensor` holds an ordered list of observers and a
  threshold that only the constructor sets. `addObserver` appends an observer.
  `removeObserver` removes the first equal element, as `List.remove(Object)`
  does. `detectTemperature` calls every listed observer, in list order and
  with the reading, exactly when the reading is at or above the threshold.
  The observer callbacks only print, so an observer is modelled by an identity
  (`ObserverId`). Each call returns a `Step`: the sensor after the call and
  the trace of callbacks it made, as pairs (observer, reading). `Run` replays
  any sequence of calls on one sensor, standing for the in-place updates of
  the Java object.
- `printer_sales_system.dfy`, module `PrinterSalesSystem`, models the strategy
  example. `DiscountStrategy` has three constructors: no discount, a fixed
  amount off each unit (clamped at zero), and a percentage off. `CalculatePrice`
  is each strategy's `calculatePrice`. A `PrinterSaleContext` holds the current
  strategy. `SetDiscountStrategy` swaps it, and `GetFinalPrice` delegates to it.
  `RunSales` replays any sequence of calls on one context, standing for the
  in-place updates of the Java object.

Java `double` values are modelled as Dafny `real`, so every formula holds
exactly; IEEE-754 rounding is not modelled. The Java `int` quantity is an
`int` that is converted to `real` before multiplying, as Java widens it to
`double`. Object identity, which the observers use for `equals`, is modelled
as equality of `ObserverId`s.

## Model

| member | source | states |
|---|---|---|
| `ServerRoomMonitor.NewSensor` | no1/ServerRoomMonitor.java:11-16 | a new sensor has the given threshold and no observers, so no reading notifies anybody |
| `ServerRoomMonitor.AddObserver` | no1/ServerRoomMonitor.java:18-20 | the new observer is last, every earlier entry keeps its position, its count goes up by one even if it was already registered, and the threshold is unchanged |
| `ServerRoomMonitor.FirstIndex` | no1/ServerRoomMonitor.java:22-24 | the returned position holds `o` and no earlier position does |
| `ServerRoomMonitor.RemoveFirst` | no1/ServerRoomMonitor.java:22-24 | the list loses exactly one copy of `o` when it holds one, as a multiset, and is unchanged when it holds none |
| `ServerRoomMonitor.RemoveFirstDropsFirstOccurrence` | no1/ServerRoomMonitor.java:22-24 | the copy removed is the first one, and the other elements keep their relative order |
| `ServerRoomMonitor.RemoveFirstAfterAppend` | no1/ServerRoomMonitor.java:18-24 | removing `o` right after appending it gives back the old list when `o` was absent, and otherwise takes out the earlier copy and keeps the appended one |
| `ServerRoomMonitor.RemoveObserver` | no1/ServerRoomMonitor.java:22-24 | unregistering deletes only the first occurrence and keeps the order of the rest; it is a no-op for an unregistered observer; the threshold is unchanged |
| `ServerRoomMonitor.NotifyObservers` | no1/ServerRoomMonitor.java:36-40 | one callback per list entry, in list order, each passed the same reading |
| `ServerRoomMonitor.DetectTemperature` | no1/ServerRoomMonitor.java:26-34 | below the threshold nobody is notified; at or above it, including equality, the trace is the observer list in order paired with the reading; the sensor is unchanged |
| `ServerRoomMonitor.NotificationCountMatchesRegistrations` | no1/ServerRoomMonitor.java:28-40 | at or above the threshold each observer is called exactly as often as it is registered; below it, never |
| `ServerRoomMonitor.AddedTwiceNotifiedTwice` | no1/ServerRoomMonitor.java:18-20 | with no duplicate check, an observer added twice is called twice more per triggering reading |
| `ServerRoomMonitor.RemovedObserverNotNotified` | no1/ServerRoomMonitor.java:22-40 | once an observer registered at most once is removed, no reading calls it |
| `ServerRoomMonitor.RemovingOneDuplicateStillNotifies` | no1/ServerRoomMonitor.java:22-40 | an observer registered twice is still called after one removal |
| `ServerRoomMonitor.RemoveUndoesAdd` | no1/ServerRoomMonitor.java:18-24 | removing an observer just added to a sensor that did not list it restores the sensor |
| `ServerRoomMonitor.RemoveAfterAddDropsEarlierCopy` | no1/ServerRoomMonitor.java:18-24 | adding an already registered observer and then removing it equals removing it first and then adding it |
| `ServerRoomMonitor.Apply` | no1/ServerRoomMonitor.java:18-34 | no single call on a sensor changes its threshold |
| `ServerRoomMonitor.Run` | no1/ServerRoomMonitor.java:10-41 | after any sequence of calls the threshold is the one given to the constructor, because no method assigns the field after the constructor; a sequence of readings alone leaves the observer list and the threshold unchanged |
| `ServerRoomMonitor.NotificationsOnlyAtOrAboveThreshold` | no1/ServerRoomMonitor.java:26-40 | every callback made during any sequence of calls carries a reading at or above the constructor's threshold |
| `PrinterSalesSystem.CalculatePrice` | no2/PrinterSalesSystem.java:6-38 | quantity 0 costs 0 under every strategy; a fixed-amount total with non-negative quantity is never negative, and it is 0 when the discount is at least the unit price |
| `PrinterSalesSystem.UnitPrice` | no2/PrinterSalesSystem.java:21-23 | the fixed-amount unit price is clamped at zero |
| `PrinterSalesSystem.TotalIsUnitPriceTimesQuantity` | no2/PrinterSalesSystem.java:8-38 | every strategy's total is its discounted unit price times the quantity |
| `PrinterSalesSystem.TotalIsAdditiveInQuantity` | no2/PrinterSalesSystem.java:8-38 | the total for `a + b` units is the total for `a` units plus the total for `b` units |
| `PrinterSalesSystem.NoDiscountChargesListTotal` | no2/PrinterSalesSystem.java:8-10 | no discount charges unit price times quantity |
| `PrinterSalesSystem.FixedAmountSavesPerUnit` | no2/PrinterSalesSystem.java:21-25 | a discount no larger than the unit price takes exactly that amount off each unit; a larger one makes the total 0 |
| `PrinterSalesSystem.FixedAmountWithinListTotal` | no2/PrinterSalesSystem.java:21-25 | for non-negative price, discount and quantity the total lies between 0 and the undiscounted total |
| `PrinterSalesSystem.PercentageScalesListTotal` | no2/PrinterSalesSystem.java:36-38 | a percentage discount charges `1 - rate` times the undiscounted total |
| `PrinterSalesSystem.FivePercentChargesNinetyFivePercent` | no2/PrinterSalesSystem.java:30-38 | a rate of 0.05 charges 95 % of the price, as the comment on the rate field says |
| `PrinterSalesSystem.ZeroDiscountsAreNoDiscount` | no2/PrinterSalesSystem.java:8-38 | rate 0 charges the same as no discount, and so does amount 0 on a non-negative price |
| `PrinterSalesSystem.GetFinalPrice` | no2/PrinterSalesSystem.java:53-55 | the final price is the current strategy's price for the same unit price and quantity |
| `PrinterSalesSystem.SetDiscountStrategy` | no2/PrinterSalesSystem.java:49-55 | after the swap every price request is answered by the new strategy, whatever the old one was |
| `PrinterSalesSystem.RunSales` | no2/PrinterSalesSystem.java:42-55 | each call on the context yields at most one price; price requests alone leave the strategy in place and yield one price each |
| `PrinterSalesSystem.RunSalesAppend` | no2/PrinterSalesSystem.java:42-55 | running two sequences of calls one after the other is running their concatenation |
| `PrinterSalesSystem.SwapAffectsOnlyLaterPrices` | no2/PrinterSalesSystem.java:49-55 | a swap leaves earlier prices as they were, and every later price comes from the new strategy |
| `PrinterSalesSystem.PrinterSaleScenario` | no2/PrinterSalesSystem.java:80-94 | three printers at 1500 cost 4500, then 4200 with 100 off each, then 4275 at rate 0.05 |

## Left out

- Console output: the messages of `detectTemperature` and the observer bodies only print, so observers are identities and printing is not modelled.
- The `main` methods of both files are driver code. The monitor's driver is not modelled. The sale driver's three prices are stated by `PrinterSalesSystem.PrinterSaleScenario`.
- The `Printer` class is a holder with two getters and no logic, so it is not modelled; the scenario uses its price, 1500, directly.
- IEEE-754 `double` rounding, NaN and infinities are not modelled, because all amounts and temperatures are reals.
- The discount rate and the quantity are not validated, because the code does not validate them. The sign of a total follows the unvalidated formula, in the model as in the code. For a positive unit price and a positive quantity, a rate above 1 gives a negative total. For a positive unit price, a negative quantity gives a negative total under no discount and under a percentage discount with a rate below 1. A fixed amount that clamps the unit price to 0 gives 0 for every quantity.
- `PrinterSalesSystem.GetFinalPrice`: a null strategy is not modelled; every `PrinterSaleContext` holds one of the three strategies. In the code, `new PrinterSaleContext(null)` and `setDiscountStrategy(null)` are accepted, and the next `getFinalPrice` then throws `NullPointerException`, where the model always returns a price.
- Null observers are not modelled: every `ObserverId` stands for a real object. In the code, `addObserver(null)` stores a null entry and `removeObserver(null)` removes the first one. A reading at or above the threshold then calls the entries before the null and throws `NullPointerException` from `detectTemperature`, so the later entries are not called. `ServerRoomMonitor.DetectTemperature` promises a callback for every entry and holds only for lists without null.
- Java `equals` and reference identity are modelled as equality of observer identities, because no observer class overrides `equals`.

## Notes on the code

- `detectTemperature` returns nothing, and the model follows the code: a `Step` holds the unchanged sensor and the trace. An empty trace does not mean that the reading was below the threshold, because the observer list may be empty.
- `addObserver` does not reject duplicates, and `List.remove(Object)` removes one copy. Removal stops later notifications only for an observer registered once (`ServerRoomMonitor.RemovedObserverNotNotified`). `ServerRoomMonitor.RemovingOneDuplicateStillNotifies` shows that an observer registered twice is still called after one removal.
