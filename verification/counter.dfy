/** The Pinia `counter` store: a counter that starts at 0, can be increased,
    and can be decreased only while it is positive. */
module CounterStore {

  datatype Store = Store(counter: int)

  /** The store's initial state. */
  function Initial(): (s: Store)
    ensures s.counter == 0
  {
    Store(0)
  }

  const RefusalMessage: string := "Counter's value has to be above 0"

  /** What `decreaseCounter` did: the new store, and the alert it raised, if any. */
  datatype Decrease = Decrease(store: Store, alert: Alert)
  datatype Alert = NoAlert | AlertRaised(message: string)

  /** `increaseCounter`. */
  function IncreaseCounter(s: Store): Store
  {
    Store(s.counter + 1)
  }

  /** `decreaseCounter`: one down while positive; at 0 (or below) nothing changes and the user is alerted. */
  function DecreaseCounter(s: Store): (r: Decrease)
    ensures s.counter > 0 ==> r.alert.NoAlert? && r.store.counter < s.counter
    ensures s.counter <= 0 ==> r.store == s && r.alert == AlertRaised(RefusalMessage)
  {
    if s.counter > 0 then Decrease(Store(s.counter - 1), NoAlert)
    else Decrease(s, AlertRaised(RefusalMessage))
  }

  /** JavaScript's `%`: the remainder takes the sign of the dividend. */
  function JsRem(a: int, b: int): (r: int)
    requires b != 0
  {
    var m := (if a < 0 then -a else a) % (if b < 0 then -b else b);
    if a < 0 then -m else m
  }

  /** The `oddOrEven` getter. */
  function OddOrEven(s: Store): (r: string)
    ensures r == "even" <==> s.counter % 2 == 0
    ensures r == "odd" <==> s.counter % 2 == 1
  {
    var c := s.counter;
    assert c < 0 ==> ((-c) % 2 == 0 <==> c % 2 == 0);
    if JsRem(c, 2) == 0 then "even" else "odd"
  }

  /** Decreasing undoes increasing, without an alert. */
  lemma DecreaseUndoesIncrease(s: Store)
    ensures DecreaseCounter(IncreaseCounter(s)) == Decrease(s, NoAlert) <==> s.counter >= 0
  {
  }

  /** Increasing after a successful decrease restores the store. */
  lemma IncreaseUndoesDecrease(s: Store)
    requires s.counter > 0
    ensures IncreaseCounter(DecreaseCounter(s).store) == s
  {
  }

  /** Neither action can make a non-negative counter negative. */
  lemma ActionsKeepNonNegative(s: Store)
    requires s.counter >= 0
    ensures IncreaseCounter(s).counter >= 0 && DecreaseCounter(s).store.counter >= 0
  {
  }

  /** Increasing always flips the getter's answer. */
  lemma IncreaseFlipsParity(s: Store)
    ensures OddOrEven(IncreaseCounter(s)) != OddOrEven(s)
    ensures IncreaseCounter(s).counter == s.counter + 1
  {
  }

  /** Any sequence of actions keeps a non-negative counter non-negative, and
      raises it by at most one per action. */
  function RunActions(s: Store, increase: seq<bool>): (r: Store)
    requires s.counter >= 0
    ensures r.counter >= 0
    ensures r.counter <= s.counter + |increase|
    decreases |increase|
  {
    if |increase| == 0 then s
    else
      var next := if increase[0] then IncreaseCounter(s) else DecreaseCounter(s).store;
      RunActions(next, increase[1..])
  }
}
