/**
 * The domain types every scale implementation shares (pkg/scale/types.go),
 * plus the error values the modelled code can produce.
 */
module ScaleTypes {
  import opened Wrappers

  /** A weight unit is a plain string; three values have a name. */
  type Unit = string

  const UnitUnknown: Unit := "--"
  const UnitGrams: Unit := "g"
  const UnitOz: Unit := "oz"

  /** The zero value of a Go string, which is what a fresh session holds. */
  const UnitZero: Unit := ""

  predicate IsNamedUnit(u: Unit) {
    u == UnitUnknown || u == UnitGrams || u == UnitOz
  }

  /** The three named units are pairwise distinct, and none is the zero value. */
  lemma NamedUnitsDistinct()
    ensures UnitUnknown != UnitGrams && UnitGrams != UnitOz && UnitUnknown != UnitOz
    ensures !IsNamedUnit(UnitZero)
  {
  }

  /** Connection state; Go declares it as an int enumerated with iota. */
  datatype State = Scanning | Connected | Disconnected {

    function Ordinal(): (k: int)
      ensures 0 <= k <= 2
    {
      match this
      case Scanning => 0
      case Connected => 1
      case Disconnected => 2
    }
  }

  /** The named state with the given integer value, if there is one. */
  function StateOf(k: int): (s: Option<State>)
    ensures s.Some? <==> 0 <= k <= 2
  {
    if k == 0 then Some(Scanning)
    else if k == 1 then Some(Connected)
    else if k == 2 then Some(Disconnected)
    else None
  }

  /** Scanning = 0, Connected = 1, Disconnected = 2, and those are the only values named. */
  lemma StateOrdinals(s: State, k: int)
    ensures Scanning.Ordinal() == 0 && Connected.Ordinal() == 1 && Disconnected.Ordinal() == 2
    ensures StateOf(s.Ordinal()) == Some(s)
    ensures StateOf(k).Some? ==> StateOf(k).value.Ordinal() == k
  {
  }

  /** The steps of the connect sequence, each of which can fail. */
  datatype ConnectStep = SetMtu | DiscoverServices | DiscoverCharacteristics | DiscoverDescriptors | Subscribe

  /** Every error the modelled code returns or publishes. */
  datatype Error =
    | InvalidBeepCount(n: int)         // Buzz called with n <= 0
    | NotReady                         // write with no peripheral or characteristic bound
    | WriteFailed                      // the transport refused a characteristic write
    | SettleTimeout(target: bool)      // the buzzer flag did not reach target within the retry budget
    | ConnectFailed(step: ConnectStep) // a connect step failed
    | LinkError                        // an error the transport handed to the connect callback

  /** A Go `error` result: nil, or an error. */
  datatype Outcome = Ok | Fail(error: Error)

  /** The latest connection state with the error that came with it, if any. */
  datatype ConnectionStatus = ConnectionStatus(error: Option<Error>, state: State)

  /**
   * A measurement. The weight is held in hundredths of the unit (the frame's
   * integer before the division by 100); the time stamp is whatever clock
   * reading the caller supplied.
   */
  datatype DataPoint = DataPoint(timeStamp: int, unit: Unit, weight: int) {

    /** The value a consumer reads: the weight, unchanged. */
    function Value(): (w: int)
      ensures w == weight
    {
      weight
    }
  }
}
