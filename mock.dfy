/**
 * The mock scale (pkg/mock/mock.go): the same interface as the Felicita
 * session without a transport. Every command succeeds at once and acts on
 * the mock's own fields; nothing is ever dispatched to handlers or channels.
 *
 * The ghost counter `toggles` counts buzzer toggles, each of which a real
 * scale would answer with one buzz.
 */
module Mock {
  import opened Wrappers
  import opened ScaleTypes
  import opened Codec
  import opened Stopwatch

  const DefaultDeviceName := "Mock Scale"

  class Mock {
    var connectionStatus: ConnectionStatus
    var batteryLevel: byte
    var isBuzzingOnTouch: bool
    var isHighPrecision: bool
    var unit: Unit
    var timer: Timer
    const deviceName: string
    ghost var toggles: nat

    /** New: every field at its zero value, the default name. */
    constructor ()
      ensures connectionStatus == ConnectionStatus(None, Scanning)
      ensures batteryLevel == 0 && !isBuzzingOnTouch && !isHighPrecision
      ensures unit == UnitZero && timer == NoTimer
      ensures deviceName == DefaultDeviceName && toggles == 0
    {
      connectionStatus := ConnectionStatus(None, Scanning);
      batteryLevel := 0;
      isBuzzingOnTouch := false;
      isHighPrecision := false;
      unit := UnitZero;
      timer := NoTimer;
      deviceName := DefaultDeviceName;
      toggles := 0;
    }

    function IsBuzzingOnTouch(): bool
      reads this
    {
      isBuzzingOnTouch
    }

    /** BatteryLevelRaw: the stored byte as an int, never normalised on the mock. */
    function BatteryLevelRaw(): (raw: int)
      reads this
      ensures 0 <= raw < 256 && raw == batteryLevel as int
    {
      batteryLevel as int
    }

    /** ElapsedTime: zero until a timer exists, then the stopwatch's reading. */
    function ElapsedTime(reading: int): (d: int)
      reads this
      ensures timer.NoTimer? ==> d == 0
      ensures timer.Timer? ==> d == reading
    {
      Elapsed(timer, reading)
    }

    /** Tare: succeeds and changes nothing. */
    method Tare() returns (r: Outcome)
      ensures r == Ok
    {
      return Ok;
    }

    /** ToggleBuzzingOnTouch: flips the flag; it cannot fail. */
    method ToggleBuzzingOnTouch() returns (r: Outcome)
      modifies this`isBuzzingOnTouch, this`toggles
      ensures r == Ok
      ensures isBuzzingOnTouch == !old(isBuzzingOnTouch) && toggles == old(toggles) + 1
    {
      isBuzzingOnTouch := !isBuzzingOnTouch;
      toggles := toggles + 1;
      return Ok;
    }

    /**
     * Buzz(n): refuses n <= 0 and changes nothing; otherwise issues exactly
     * 2n toggles and leaves the flag as it found it. With the buzzer on, it
     * is first toggled off, one cycle fewer is run, and the deferred toggle
     * turns it back on at the end. The mock's toggle never fails, so the
     * error checks after each toggle never fire and are not modelled.
     */
    method Buzz(n: int) returns (r: Outcome)
      modifies this`isBuzzingOnTouch, this`toggles
      ensures n <= 0 ==> r == Fail(InvalidBeepCount(n)) && unchanged(this)
      ensures n > 0 ==> r == Ok && isBuzzingOnTouch == old(isBuzzingOnTouch)
                        && toggles == old(toggles) + 2 * n
    {
      if n <= 0 {
        return Fail(InvalidBeepCount(n));
      }
      var count := n;
      var restore := false;
      if IsBuzzingOnTouch() {
        r := ToggleBuzzingOnTouch();
        count := count - 1;
        restore := true;
      }
      var i := 0;
      while i < count
        invariant 0 <= i <= count
        invariant count == if restore then n - 1 else n
        invariant restore == old(isBuzzingOnTouch) && !isBuzzingOnTouch
        invariant toggles == old(toggles) + (if restore then 1 else 0) + 2 * i
      {
        r := ToggleBuzzingOnTouch();
        r := ToggleBuzzingOnTouch();
        i := i + 1;
      }
      if restore {
        r := ToggleBuzzingOnTouch();
      }
      return Ok;
    }

    /**
     * SetUnit: leaves a known unit equal to the request alone, otherwise
     * stores the request; either way the unit is then the requested one.
     */
    method SetUnit(u: Unit) returns (r: Outcome)
      modifies this`unit
      ensures r == Ok && unit == u
    {
      if unit != UnitUnknown && unit == u {
        return Ok;
      }
      unit := u;
      return Ok;
    }

    /** TogglePrecision: flips between the two precisions; it cannot fail. */
    method TogglePrecision() returns (r: Outcome)
      modifies this`isHighPrecision
      ensures r == Ok && isHighPrecision == !old(isHighPrecision)
    {
      isHighPrecision := !isHighPrecision;
      return Ok;
    }

    /** StartTimer: creates the timer when there is none, otherwise restarts it. */
    method StartTimer() returns (r: Outcome)
      modifies this`timer
      ensures r == Ok && timer == Started(old(timer))
    {
      timer := Started(timer);
      return Ok;
    }

    /** StopTimer: stops the timer, if any. */
    method StopTimer() returns (r: Outcome)
      modifies this`timer
      ensures r == Ok && timer == Stopped(old(timer))
    {
      timer := Stopped(timer);
      return Ok;
    }

    /** ResetTimer: resets the timer, if any. */
    method ResetTimer() returns (r: Outcome)
      modifies this`timer
      ensures r == Ok && timer == Cleared(old(timer))
    {
      timer := Cleared(timer);
      return Ok;
    }
  }
}
