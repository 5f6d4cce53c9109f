/**
 A model of the server-room temperature monitor: a sensor keeps an ordered
 list of observers and a fixed threshold, and every reading at or above the
 threshold is passed to each listed observer, in list order.

 The sensor is an immutable record; each operation returns the new record.
 Observer callbacks only print a message, so an observer is modelled by its
 identity and a notification by the pair (observer, reading). A call of
 `detectTemperature` yields the notification trace, which makes ordering,
 multiplicity and the threshold boundary statable.
 */
module ServerRoomMonitor {

  /** An observer, compared by identity as the list operations compare them. */
  type ObserverId = nat

  /** A temperature; the Java `double` is modelled as a mathematical real. */
  type Temperature = real

  /** One callback: the observer that was called and the reading it received. */
  type Notification = (ObserverId, Temperature)

  datatype TemperatureSensor = TemperatureSensor(observers: seq<ObserverId>, threshold: Temperature)

  /** What one call on a sensor leaves behind: the sensor after the call and
      the callbacks it made, in order (none for registration calls). */
  datatype Step = Step(sensor: TemperatureSensor, trace: seq<Notification>)

  /** The observers named by a trace, in the order they were called. */
  function Recipients(trace: seq<Notification>): (r: seq<ObserverId>)
    ensures |r| == |trace|
    ensures forall i :: 0 <= i < |trace| ==> r[i] == trace[i].0
  {
    seq(|trace|, i requires 0 <= i < |trace| => trace[i].0)
  }

  /** A new sensor: the given threshold and no observers, so no reading
      notifies anybody yet. */
  function NewSensor(threshold: Temperature): (s: TemperatureSensor)
    ensures s.threshold == threshold
    ensures s.observers == []
    ensures forall t :: DetectTemperature(s, t).trace == []
  {
    TemperatureSensor([], threshold)
  }

  /** Registration appends: the new observer is last, every earlier entry
      keeps its position, and duplicates are not filtered out. */
  function AddObserver(s: TemperatureSensor, o: ObserverId): (s': TemperatureSensor)
    ensures s'.threshold == s.threshold
    ensures |s'.observers| == |s.observers| + 1
    ensures s'.observers[|s.observers|] == o
    ensures forall i :: 0 <= i < |s.observers| ==> s'.observers[i] == s.observers[i]
    ensures multiset(s'.observers)[o] == multiset(s.observers)[o] + 1
  {
    s.(observers := s.observers + [o])
  }

  /** The position of the first occurrence of `o` in `xs`. */
  function FirstIndex(xs: seq<ObserverId>, o: ObserverId): (k: nat)
    requires o in xs
    ensures k < |xs| && xs[k] == o
    ensures o !in xs[..k]
  {
    if xs[0] == o then 0
    else
      assert xs == [xs[0]] + xs[1..];
      1 + FirstIndex(xs[1..], o)
  }

  /** `List.remove(Object)`: drops one element equal to `o` when there is
      one, and leaves the list as it is otherwise. */
  function RemoveFirst(xs: seq<ObserverId>, o: ObserverId): (r: seq<ObserverId>)
    ensures o !in xs ==> r == xs
    ensures multiset(r) == multiset(xs) - multiset{o}
  {
    if xs == [] then []
    else
      assert xs == [xs[0]] + xs[1..];
      if xs[0] == o then xs[1..]
      else [xs[0]] + RemoveFirst(xs[1..], o)
  }

  /** The element dropped is the first occurrence, and the remaining
      elements keep their relative order. */
  lemma {:induction false} RemoveFirstDropsFirstOccurrence(xs: seq<ObserverId>, o: ObserverId)
    ensures o in xs ==>
              var k := FirstIndex(xs, o);
              RemoveFirst(xs, o) == xs[..k] + xs[k + 1..]
  {
    if o !in xs {
    } else if xs[0] == o {
      assert FirstIndex(xs, o) == 0;
      assert RemoveFirst(xs, o) == xs[1..];
      assert xs[..0] + xs[1..] == xs[1..];
    } else {
      var tail := xs[1..];
      assert o in tail by { assert xs == [xs[0]] + tail; }
      var j := FirstIndex(tail, o);
      var k := FirstIndex(xs, o);
      assert k == j + 1;
      RemoveFirstDropsFirstOccurrence(tail, o);
      assert RemoveFirst(xs, o) == [xs[0]] + RemoveFirst(tail, o);
      HeadThenSlices(xs, j);
    }
  }

  /** Slicing a non-empty sequence after its head. */
  lemma HeadThenSlices(xs: seq<ObserverId>, j: nat)
    requires j + 1 < |xs|
    ensures xs[..j + 1] + xs[j + 2..] == [xs[0]] + (xs[1..][..j] + xs[1..][j + 1..])
  {
    assert xs[..j + 1] == [xs[0]] + xs[1..][..j];
    assert xs[j + 2..] == xs[1..][j + 1..];
  }

  /** Unregistration removes the first occurrence of `o` only, and is a no-op
      when `o` is not registered. */
  function RemoveObserver(s: TemperatureSensor, o: ObserverId): (s': TemperatureSensor)
    ensures s'.threshold == s.threshold
    ensures o !in s.observers ==> s' == s
    ensures o in s.observers ==>
              var k := FirstIndex(s.observers, o);
              s'.observers == s.observers[..k] + s.observers[k + 1..]
    ensures multiset(s'.observers) == multiset(s.observers) - multiset{o}
  {
    RemoveFirstDropsFirstOccurrence(s.observers, o);
    s.(observers := RemoveFirst(s.observers, o))
  }

  /** The loop of `notifyObservers`: one callback per list entry, in list
      order, each with the same reading. */
  function NotifyObservers(observers: seq<ObserverId>, temperature: Temperature): (trace: seq<Notification>)
    ensures |trace| == |observers|
    ensures forall i :: 0 <= i < |trace| ==> trace[i] == (observers[i], temperature)
  {
    if observers == [] then []
    else [(observers[0], temperature)] + NotifyObservers(observers[1..], temperature)
  }

  /** A reading below the threshold notifies nobody; a reading at or above it
      notifies every registered observer in order. The sensor is unchanged. */
  function DetectTemperature(s: TemperatureSensor, currentTemp: Temperature): (d: Step)
    ensures d.sensor == s
    ensures currentTemp < s.threshold ==> d.trace == []
    ensures s.threshold <= currentTemp ==>
              && |d.trace| == |s.observers|
              && forall i :: 0 <= i < |d.trace| ==> d.trace[i] == (s.observers[i], currentTemp)
  {
    if currentTemp >= s.threshold then Step(s, NotifyObservers(s.observers, currentTemp))
    else Step(s, [])
  }

  /** At or above the threshold each observer is called exactly as many times
      as it is registered; below it, never. */
  lemma NotificationCountMatchesRegistrations(s: TemperatureSensor, t: Temperature, o: ObserverId)
    ensures s.threshold <= t ==> multiset(Recipients(DetectTemperature(s, t).trace))[o] == multiset(s.observers)[o]
    ensures t < s.threshold ==> multiset(Recipients(DetectTemperature(s, t).trace))[o] == 0
  {
    if s.threshold <= t {
      assert Recipients(DetectTemperature(s, t).trace) == s.observers;
    }
  }

  /** Registering the same observer twice makes it be called twice more per
      triggering reading. */
  lemma AddedTwiceNotifiedTwice(s: TemperatureSensor, o: ObserverId, t: Temperature)
    requires s.threshold <= t
    ensures var s2 := AddObserver(AddObserver(s, o), o);
            multiset(Recipients(DetectTemperature(s2, t).trace))[o] == multiset(s.observers)[o] + 2
  {
    var s2 := AddObserver(AddObserver(s, o), o);
    NotificationCountMatchesRegistrations(s2, t, o);
  }

  /** Once an observer registered at most once is removed, no later reading
      calls it. */
  lemma RemovedObserverNotNotified(s: TemperatureSensor, o: ObserverId, t: Temperature)
    requires multiset(s.observers)[o] <= 1
    ensures o !in Recipients(DetectTemperature(RemoveObserver(s, o), t).trace)
  {
    var s' := RemoveObserver(s, o);
    NotificationCountMatchesRegistrations(s', t, o);
    assert multiset(s'.observers)[o] == 0;
  }

  /** Removal takes out one copy only: an observer registered twice is still
      called after one removal. */
  lemma RemovingOneDuplicateStillNotifies(s: TemperatureSensor, o: ObserverId, t: Temperature)
    requires multiset(s.observers)[o] >= 2
    requires s.threshold <= t
    ensures o in Recipients(DetectTemperature(RemoveObserver(s, o), t).trace)
  {
    var s' := RemoveObserver(s, o);
    NotificationCountMatchesRegistrations(s', t, o);
    assert multiset(s'.observers)[o] >= 1;
  }

  /** Removing an observer just added to a sensor that did not list it
      restores the sensor. */
  lemma RemoveUndoesAdd(s: TemperatureSensor, o: ObserverId)
    requires o !in s.observers
    ensures RemoveObserver(AddObserver(s, o), o) == s
  {
    RemoveFirstAfterAppend(s.observers, o);
  }

  /** Appending `o` and then removing it: when `o` was absent the list comes
      back unchanged, and when it was present the earlier copy is the one
      taken out. */
  lemma {:induction false} RemoveFirstAfterAppend(xs: seq<ObserverId>, o: ObserverId)
    ensures o !in xs ==> RemoveFirst(xs + [o], o) == xs
    ensures o in xs ==> RemoveFirst(xs + [o], o) == RemoveFirst(xs, o) + [o]
  {
    var ys := xs + [o];
    if xs == [] {
      assert ys == [o];
    } else {
      assert ys[0] == xs[0];
      assert ys[1..] == xs[1..] + [o];
      assert xs == [xs[0]] + xs[1..];
      if xs[0] != o {
        RemoveFirstAfterAppend(xs[1..], o);
        assert RemoveFirst(ys, o) == [xs[0]] + RemoveFirst(xs[1..] + [o], o);
      }
    }
  }

  /** When `o` is already registered, adding it again and then removing it
      takes out the earlier copy: the same as removing first and then adding. */
  lemma RemoveAfterAddDropsEarlierCopy(s: TemperatureSensor, o: ObserverId)
    requires o in s.observers
    ensures RemoveObserver(AddObserver(s, o), o) == AddObserver(RemoveObserver(s, o), o)
  {
    RemoveFirstAfterAppend(s.observers, o);
  }

  /** The calls a client can make on a sensor after constructing it. */
  datatype SensorCall =
    | AddObserverCall(observer: ObserverId)
    | RemoveObserverCall(observer: ObserverId)
    | DetectTemperatureCall(reading: Temperature)

  function Apply(s: TemperatureSensor, call: SensorCall): (d: Step)
    ensures d.sensor.threshold == s.threshold
  {
    match call
    case AddObserverCall(o) => Step(AddObserver(s, o), [])
    case RemoveObserverCall(o) => Step(RemoveObserver(s, o), [])
    case DetectTemperatureCall(t) => DetectTemperature(s, t)
  }

  /** A sequence of calls on one sensor object: the final sensor and all
      callbacks made, in order. No sequence of calls changes the threshold,
      and a sequence of readings alone changes nothing. */
  function Run(s: TemperatureSensor, calls: seq<SensorCall>): (d: Step)
    ensures d.sensor.threshold == s.threshold
    ensures (forall i :: 0 <= i < |calls| ==> calls[i].DetectTemperatureCall?) ==> d.sensor == s
    decreases |calls|
  {
    if calls == [] then Step(s, [])
    else
      var first := Apply(s, calls[0]);
      var rest := Run(first.sensor, calls[1..]);
      Step(rest.sensor, first.trace + rest.trace)
  }

  /** Every callback made during any sequence of calls carries a reading at
      or above the threshold the sensor was constructed with. */
  lemma {:induction false} NotificationsOnlyAtOrAboveThreshold(s: TemperatureSensor, calls: seq<SensorCall>)
    ensures forall i :: 0 <= i < |Run(s, calls).trace| ==> s.threshold <= Run(s, calls).trace[i].1
    decreases |calls|
  {
    if calls != [] {
      var first := Apply(s, calls[0]);
      NotificationsOnlyAtOrAboveThreshold(first.sensor, calls[1..]);
      var rest := Run(first.sensor, calls[1..]);
      assert Run(s, calls).trace == first.trace + rest.trace;
      forall i | 0 <= i < |first.trace|
        ensures s.threshold <= first.trace[i].1
      {
        assert calls[0].DetectTemperatureCall?;
      }
    }
  }
}
