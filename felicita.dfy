/**
 * The Felicita scale session (pkg/felicita/felicita.go): the session state,
 * the command layer over the BLE characteristic, the buzz sequencer, frame
 * reception and the connection-status transitions driven by the transport's
 * callbacks.
 *
 * The transport is abstracted: its answers are the oracles of the class
 * (writeFails, seen, stateChanReady) and the Peripheral values handed to the
 * callbacks; what the session does to the outside world is recorded in two
 * logs, `sent` (every command byte handed to the transport) and `events`
 * (every status or data dispatch and every scan/connect request).
 */
module Felicita {
  import opened Wrappers
  import opened ScaleTypes
  import opened Codec
  import opened Transport
  import opened Stopwatch
  import Sequencer

  /** The optional buzzer preference applied on the first received frame; Unset is Go's "". */
  datatype BuzzerSetting = Unset | On | Off

  /** Something the session did that a caller or the transport can observe. */
  datatype Event =
    | StatusToHandler(status: ConnectionStatus)
    | StatusToChannel(status: ConnectionStatus)
    | DataToHandler(point: DataPoint)
    | DataToChannel(point: DataPoint)
    | ScanStarted
    | ScanStopped
    | ConnectRequested(peripheral: Peripheral)
    | ConnectionCancelled(peripheral: Peripheral)

  // ---------------------------------------------------------------- device identity

  /** ASCII case folding of one character. */
  function FoldChar(c: char): char {
    if 'A' <= c <= 'Z' then (c as int + 32) as char else c
  }

  function UpperChar(c: char): char {
    if 'a' <= c <= 'z' then (c as int - 32) as char else c
  }

  function Upper(s: string): (r: string)
    ensures |r| == |s| && forall i :: 0 <= i < |s| ==> r[i] == UpperChar(s[i])
  {
    seq(|s|, i requires 0 <= i < |s| => UpperChar(s[i]))
  }

  /** strings.EqualFold, on ASCII letters. */
  predicate EqualFold(a: string, b: string) {
    |a| == |b| && forall i :: 0 <= i < |a| ==> FoldChar(a[i]) == FoldChar(b[i])
  }

  /** Case-insensitive equality is an equivalence, and upper-casing either side does not change it. */
  lemma EqualFoldProperties(a: string, b: string, c: string)
    ensures EqualFold(a, a)
    ensures EqualFold(a, b) ==> EqualFold(b, a)
    ensures EqualFold(a, b) && EqualFold(b, c) ==> EqualFold(a, c)
    ensures EqualFold(Upper(a), b) <==> EqualFold(a, b)
  {
    assert forall i :: 0 <= i < |a| ==> FoldChar(Upper(a)[i]) == FoldChar(a[i]);
  }

  /**
   * thisDevice: a peripheral is ours when an ID is configured and equals its
   * ID ignoring case, or else when its name equals the configured name
   * ignoring case.
   */
  function ThisDevice(deviceID: string, deviceName: string, p: Peripheral): (accept: bool)
    ensures EqualFold(p.name, deviceName) ==> accept
    ensures deviceID != "" && EqualFold(p.id, deviceID) ==> accept
    ensures deviceID == "" ==> (accept <==> EqualFold(p.name, deviceName))
    ensures !EqualFold(p.id, deviceID) && !EqualFold(p.name, deviceName) ==> !accept
  {
    if deviceID != "" && EqualFold(p.id, deviceID) then true
    else EqualFold(p.name, deviceName)
  }

  /** The letter case of the peripheral's ID and name never matters. */
  lemma ThisDeviceIgnoresCase(deviceID: string, deviceName: string, p: Peripheral)
    ensures ThisDevice(deviceID, deviceName, p.(id := Upper(p.id), name := Upper(p.name)))
            == ThisDevice(deviceID, deviceName, p)
  {
    EqualFoldProperties(p.id, deviceID, deviceID);
    EqualFoldProperties(p.name, deviceName, deviceName);
  }

  // ---------------------------------------------------------------- connect sequence

  /** The peripheral and characteristic the session writes to (both nil at first). */
  datatype Binding = Binding(peripheral: Option<Peripheral>, characteristic: Option<GattCharacteristic>)

  /** Every step of the connect sequence succeeds for this peripheral. */
  predicate ConnectSucceeds(p: Peripheral) {
    !p.mtuFails && !p.servicesFail
    && forall s :: s in p.services && s.uuid == DataService ==> ServiceSucceeds(s)
  }

  predicate ServiceSucceeds(s: GattService) {
    !s.characteristicsFail && forall c :: c in s.characteristics ==> CharacteristicSucceeds(c)
  }

  predicate CharacteristicSucceeds(c: GattCharacteristic) {
    c.uuid == DataCharacteristic ==> !c.descriptorsFail && !c.subscribeFails
  }

  /** The binding either stays as it was or is p with one of the given data characteristics. */
  predicate BindsWithin(p: Peripheral, cs: set<GattCharacteristic>, before: Binding, after: Binding) {
    after == before
    || (after.peripheral == Some(p) && after.characteristic.Some?
        && after.characteristic.value in cs && after.characteristic.value.uuid == DataCharacteristic)
  }

  /** The service holds a characteristic with the data UUID. */
  predicate HasDataCharacteristic(s: GattService) {
    exists c :: c in s.characteristics && c.uuid == DataCharacteristic
  }

  /** Some data service of the list holds a data characteristic. */
  predicate OffersData(ss: seq<GattService>) {
    exists s :: s in ss && s.uuid == DataService && HasDataCharacteristic(s)
  }

  /**
   * The inner loop of onPeriphConnected: every data characteristic is bound
   * (before its descriptors are discovered), then its descriptors and its
   * subscription must succeed.
   */
  function WalkCharacteristics(p: Peripheral, cs: seq<GattCharacteristic>, b: Binding): (res: (Option<Error>, Binding))
    ensures res.0.Some? ==> res.0 == Some(ConnectFailed(DiscoverDescriptors)) || res.0 == Some(ConnectFailed(Subscribe))
    ensures res.0.Some? ==> res.1.peripheral == Some(p) && res.1.characteristic.Some?
                            && res.1.characteristic.value.uuid == DataCharacteristic
    ensures res.0.Some? ==> res.1.characteristic.value in cs && !CharacteristicSucceeds(res.1.characteristic.value)
    decreases |cs|
  {
    if cs == [] then (None, b)
    else
      var c := cs[0];
      if c.uuid != DataCharacteristic then WalkCharacteristics(p, cs[1..], b)
      else
        var b' := Binding(Some(p), Some(c));
        if c.descriptorsFail then (Some(ConnectFailed(DiscoverDescriptors)), b')
        else if c.subscribeFails then (Some(ConnectFailed(Subscribe)), b')
        else WalkCharacteristics(p, cs[1..], b')
  }

  /**
   * The walk over characteristics fails exactly when a data characteristic
   * fails its descriptors or its subscription; it leaves the binding alone
   * or binds p to one of its data characteristics, and it does bind p as
   * soon as cs holds a data characteristic.
   */
  lemma {:induction false} WalkCharacteristicsSpec(p: Peripheral, cs: seq<GattCharacteristic>, b: Binding)
    ensures WalkCharacteristics(p, cs, b).0.None? <==> forall c :: c in cs ==> CharacteristicSucceeds(c)
    ensures BindsWithin(p, (set c | c in cs), b, WalkCharacteristics(p, cs, b).1)
    ensures (exists c :: c in cs && c.uuid == DataCharacteristic) ==>
              WalkCharacteristics(p, cs, b).1.peripheral == Some(p) && WalkCharacteristics(p, cs, b).1.characteristic.Some?
    decreases |cs|
  {
    if cs != [] {
      var c := cs[0];
      assert c in cs;
      assert forall x :: x in cs ==> x == c || x in cs[1..];
      if c.uuid != DataCharacteristic {
        WalkCharacteristicsSpec(p, cs[1..], b);
      } else if !c.descriptorsFail && !c.subscribeFails {
        WalkCharacteristicsSpec(p, cs[1..], Binding(Some(p), Some(c)));
      }
    }
  }

  /** The outer loop: the characteristics of every data service, in order. */
  function WalkServices(p: Peripheral, ss: seq<GattService>, b: Binding): (res: (Option<Error>, Binding))
    ensures res.0.Some? ==> res.0.value.ConnectFailed?
                            && res.0.value.step in {DiscoverCharacteristics, DiscoverDescriptors, Subscribe}
    decreases |ss|
  {
    if ss == [] then (None, b)
    else
      var s := ss[0];
      if s.uuid != DataService then WalkServices(p, ss[1..], b)
      else if s.characteristicsFail then (Some(ConnectFailed(DiscoverCharacteristics)), b)
      else
        var (e, b') := WalkCharacteristics(p, s.characteristics, b);
        if e.Some? then (e, b') else WalkServices(p, ss[1..], b')
  }

  /**
   * The walk over services fails exactly when a data service fails; it
   * leaves the binding alone or binds p to a data characteristic of one of
   * the services; a successful walk over a data service that holds a data
   * characteristic binds p.
   */
  lemma {:induction false} WalkServicesSpec(p: Peripheral, ss: seq<GattService>, b: Binding)
    ensures WalkServices(p, ss, b).0.None? <==> forall s :: s in ss && s.uuid == DataService ==> ServiceSucceeds(s)
    ensures BindsWithin(p, (set s, c | s in ss && c in s.characteristics :: c), b, WalkServices(p, ss, b).1)
    ensures WalkServices(p, ss, b).0.None? && OffersData(ss) ==>
              WalkServices(p, ss, b).1.peripheral == Some(p) && WalkServices(p, ss, b).1.characteristic.Some?
    decreases |ss|
  {
    if ss != [] {
      var s := ss[0];
      assert s in ss;
      assert forall x :: x in ss ==> x == s || x in ss[1..];
      if s.uuid != DataService {
        WalkServicesSpec(p, ss[1..], b);
        assert OffersData(ss) ==> OffersData(ss[1..]);
      } else if !s.characteristicsFail {
        WalkCharacteristicsSpec(p, s.characteristics, b);
        var (e, b') := WalkCharacteristics(p, s.characteristics, b);
        if e.None? {
          WalkServicesSpec(p, ss[1..], b');
          assert BindsWithin(p, (set s, c | s in ss && c in s.characteristics :: c), b, b');
          if OffersData(ss) && !HasDataCharacteristic(s) {
            assert OffersData(ss[1..]);
          }
        }
      }
    }
  }

  /**
   * The connect steps of onPeriphConnected up to the wait for release: set
   * the MTU, discover services, then walk them. The error is the first
   * failing step's, and the binding is what the walk left behind.
   */
  function ConnectSteps(p: Peripheral, b: Binding): (res: (Option<Error>, Binding))
    ensures res.0.Some? ==> res.0.value.ConnectFailed?
    ensures res.0 == Some(ConnectFailed(SetMtu)) <==> p.mtuFails
    ensures res.0 == Some(ConnectFailed(DiscoverServices)) <==> !p.mtuFails && p.servicesFail
  {
    if p.mtuFails then (Some(ConnectFailed(SetMtu)), b)
    else if p.servicesFail then (Some(ConnectFailed(DiscoverServices)), b)
    else WalkServices(p, p.services, b)
  }

  /**
   * The connect sequence succeeds exactly when every step does; an MTU or
   * service discovery failure binds nothing, any binding made is p with
   * one of its data characteristics, and a successful connect of a
   * peripheral offering the data characteristic leaves p bound.
   */
  lemma ConnectStepsSpec(p: Peripheral, b: Binding)
    ensures ConnectSteps(p, b).0.None? <==> ConnectSucceeds(p)
    ensures p.mtuFails ==> ConnectSteps(p, b) == (Some(ConnectFailed(SetMtu)), b)
    ensures !p.mtuFails && p.servicesFail ==> ConnectSteps(p, b) == (Some(ConnectFailed(DiscoverServices)), b)
    ensures BindsWithin(p, (set s, c | s in p.services && c in s.characteristics :: c), b, ConnectSteps(p, b).1)
    ensures ConnectSteps(p, b).0.None? && OffersData(p.services) ==>
              ConnectSteps(p, b).1.peripheral == Some(p) && ConnectSteps(p, b).1.characteristic.Some?
  {
    WalkServicesSpec(p, p.services, b);
  }

  // ---------------------------------------------------------------- forced buzzer setting

  /**
   * forceBuzzerSetting toggles only before any data, with a preference set
   * that the flag contradicts: once data has been received, or with no
   * preference, or with a flag that agrees, nothing is forced.
   */
  predicate ForcesToggle(hasReceivedData: bool, setting: BuzzerSetting, flag: bool): (force: bool)
    ensures hasReceivedData || setting == Unset ==> !force
    ensures !hasReceivedData && setting == On ==> (force <==> !flag)
    ensures !hasReceivedData && setting == Off ==> (force <==> flag)
  {
    !hasReceivedData && setting != Unset
    && ((flag && setting == Off) || (!flag && setting == On))
  }

  // ---------------------------------------------------------------- the session

  class Felicita {
    var connectionStatus: ConnectionStatus
    var batteryLevel: byte
    var isBuzzingOnTouch: bool
    var unit: Unit
    var timer: Timer

    const deviceID: string
    const deviceName: string
    const forceBuzzerSettingOnConnect: BuzzerSetting
    var hasReceivedData: bool

    var hasStateChangeHandler: bool
    var hasStateChangeChan: bool
    var hasDataHandler: bool
    var hasDataChan: bool

    var peripheral: Option<Peripheral>
    var characteristic: Option<GattCharacteristic>

    // The transport's answers: does the k-th write fail, what does the k-th
    // buzzer poll read, does the k-th non-blocking status send find a receiver.
    const writeFails: nat -> bool
    const seen: nat -> bool
    const stateChanReady: nat -> bool

    // What the session did, and how many polls and status sends it made.
    var sent: seq<byte>
    var polls: nat
    var stateSends: nat
    var events: seq<Event>

    /** The number of toggles forceBuzzerSetting has issued. */
    ghost var forcedToggles: nat

    /** The forced buzzer correction fires at most once, and never before the first accepted frame. */
    ghost predicate Valid()
      reads this
    {
      forcedToggles <= 1 && (!hasReceivedData ==> forcedToggles == 0)
    }

    /** New, after the functional options have supplied identity, preference and transport. */
    constructor (deviceID: string, deviceName: string, forceBuzzerSetting: BuzzerSetting,
                 writeFails: nat -> bool, seen: nat -> bool, stateChanReady: nat -> bool)
      ensures Valid()
      ensures this.deviceID == deviceID && this.deviceName == deviceName
      ensures forceBuzzerSettingOnConnect == forceBuzzerSetting
      ensures this.writeFails == writeFails && this.seen == seen && this.stateChanReady == stateChanReady
      ensures connectionStatus == ConnectionStatus(None, Scanning)
      ensures batteryLevel == 0 && !isBuzzingOnTouch && unit == UnitZero && timer == NoTimer
      ensures !hasReceivedData && peripheral == None && characteristic == None
      ensures !hasStateChangeHandler && !hasStateChangeChan && !hasDataHandler && !hasDataChan
      ensures sent == [] && polls == 0 && stateSends == 0 && events == []
    {
      this.deviceID := deviceID;
      this.deviceName := deviceName;
      forceBuzzerSettingOnConnect := forceBuzzerSetting;
      this.writeFails := writeFails;
      this.seen := seen;
      this.stateChanReady := stateChanReady;
      connectionStatus := ConnectionStatus(None, Scanning);
      batteryLevel := 0;
      isBuzzingOnTouch := false;
      unit := UnitZero;
      timer := NoTimer;
      hasReceivedData := false;
      hasStateChangeHandler, hasStateChangeChan := false, false;
      hasDataHandler, hasDataChan := false, false;
      peripheral, characteristic := None, None;
      sent, polls, stateSends, events := [], 0, 0, [];
      forcedToggles := 0;
    }

    // ------------------------------------------------------------ views

    function Ready(): bool
      reads this`peripheral, this`characteristic
    {
      peripheral.Some? && characteristic.Some?
    }

    function Env(): Oracle
      reads this`peripheral, this`characteristic
    {
      Oracle(Ready(), writeFails, seen)
    }

    function LinkState(): Link
      reads this`isBuzzingOnTouch, this`sent, this`polls
    {
      Link(isBuzzingOnTouch, sent, polls)
    }

    function Bound(): Binding
      reads this
    {
      Binding(peripheral, characteristic)
    }

    function IsBuzzingOnTouch(): bool
      reads this
    {
      isBuzzingOnTouch
    }

    /** BatteryLevel: the raw byte normalised to a percentage. */
    function BatteryLevel(): (percent: int)
      reads this
      ensures 0 <= percent <= 100
      ensures percent == ParseBatteryLevel(batteryLevel)
    {
      ParseBatteryLevel(batteryLevel)
    }

    /** BatteryLevelRaw: the stored byte as an int. */
    function BatteryLevelRaw(): (raw: int)
      reads this
      ensures 0 <= raw < 256 && raw == batteryLevel as int
    {
      batteryLevel as int
    }

    /** ElapsedTime: zero until a timer exists, then the stopwatch's reading. */
    function ElapsedTime(reading: int): (d: int)
      reads this
      ensures timer.NoTimer? ==> d == 0
      ensures timer.Timer? ==> d == reading
    {
      Elapsed(timer, reading)
    }

    /** The dispatch of a status: handler first, then the channel if the k-th send finds a receiver. */
    function StatusDispatch(k: nat, s: ConnectionStatus): seq<Event>
      reads this`hasStateChangeHandler, this`hasStateChangeChan
    {
      (if hasStateChangeHandler then [StatusToHandler(s)] else [])
      + (if hasStateChangeChan && stateChanReady(k) then [StatusToChannel(s)] else [])
    }

    /** The dispatch of a data point: handler first, then the (blocking) channel send. */
    function DataDispatch(p: DataPoint): seq<Event>
      reads this`hasDataHandler, this`hasDataChan
    {
      (if hasDataHandler then [DataToHandler(p)] else [])
      + (if hasDataChan then [DataToChannel(p)] else [])
    }

    // ------------------------------------------------------------ registration

    method SetStateChangeHandler(registered: bool)
      modifies this`hasStateChangeHandler
      ensures hasStateChangeHandler == registered
    {
      hasStateChangeHandler := registered;
    }

    method SetStateChangeChannel(registered: bool)
      modifies this`hasStateChangeChan
      ensures hasStateChangeChan == registered
    {
      hasStateChangeChan := registered;
    }

    method SetDataHandler(registered: bool)
      modifies this`hasDataHandler
      ensures hasDataHandler == registered
    {
      hasDataHandler := registered;
    }

    method SetDataChannel(registered: bool)
      modifies this`hasDataChan
      ensures hasDataChan == registered
    {
      hasDataChan := registered;
    }

    // ------------------------------------------------------------ commands

    /**
     * write: with no peripheral or characteristic bound, fails with nothing
     * sent; otherwise hands the byte to the transport and returns its answer.
     */
    method Write(cmd: byte) returns (r: Outcome)
      modifies this`sent
      ensures !Ready() ==> r == Fail(NotReady) && sent == old(sent)
      ensures Ready() ==> sent == old(sent) + [cmd] && (r.Ok? <==> !writeFails(|old(sent)|))
      ensures (r, LinkState()) == Transmit(Env(), old(LinkState()), cmd)
    {
      if peripheral.None? || characteristic.None? {
        return Fail(NotReady);
      }
      r := if writeFails(|sent|) then Fail(WriteFailed) else Ok;
      sent := sent + [cmd];
    }

    method Tare() returns (r: Outcome)
      modifies this`sent
      ensures (r, LinkState()) == Transmit(Env(), old(LinkState()), CmdTare)
    {
      r := Write(CmdTare);
    }

    method TogglePrecision() returns (r: Outcome)
      modifies this`sent
      ensures (r, LinkState()) == Transmit(Env(), old(LinkState()), CmdTogglePrecision)
    {
      r := Write(CmdTogglePrecision);
    }

    method ToggleBuzzingOnTouch() returns (r: Outcome)
      modifies this`sent
      ensures (r, LinkState()) == Sequencer.Toggle(Env(), old(LinkState()))
      ensures sent == if Ready() then old(sent) + [CmdToggleBuzzer] else old(sent)
    {
      r := Write(CmdToggleBuzzer);
    }

    /**
     * SetUnit: nothing is written when the current unit is known and already
     * the requested one; otherwise the toggle-unit command is written. The
     * unit field itself changes only with the next frame.
     */
    method SetUnit(u: Unit) returns (r: Outcome)
      modifies this`sent
      ensures unit != UnitUnknown && unit == u ==> r == Ok && sent == old(sent)
      ensures !(unit != UnitUnknown && unit == u) ==>
        (r, LinkState()) == Transmit(Env(), old(LinkState()), CmdToggleUnit)
    {
      if unit != UnitUnknown && unit == u {
        return Ok;
      }
      r := Write(CmdToggleUnit);
    }

    /** StartTimer: the timer is started (created when nil) only after the write succeeds. */
    method StartTimer() returns (r: Outcome)
      modifies this`sent, this`timer
      ensures (r, LinkState()) == Transmit(Env(), old(LinkState()), CmdStartTimer)
      ensures timer == if r.Ok? then Started(old(timer)) else old(timer)
    {
      r := Write(CmdStartTimer);
      if r.Fail? {
        return;
      }
      timer := Started(timer);
    }

    /** StopTimer: the timer, if any, is stopped only after the write succeeds. */
    method StopTimer() returns (r: Outcome)
      modifies this`sent, this`timer
      ensures (r, LinkState()) == Transmit(Env(), old(LinkState()), CmdStopTimer)
      ensures timer == if r.Ok? then Stopped(old(timer)) else old(timer)
    {
      r := Write(CmdStopTimer);
      if r.Fail? {
        return;
      }
      timer := Stopped(timer);
    }

    /** ResetTimer: the timer, if any, is reset only after the write succeeds. */
    method ResetTimer() returns (r: Outcome)
      modifies this`sent, this`timer
      ensures (r, LinkState()) == Transmit(Env(), old(LinkState()), CmdResetTimer)
      ensures timer == if r.Ok? then Cleared(old(timer)) else old(timer)
    {
      r := Write(CmdResetTimer);
      if r.Fail? {
        return;
      }
      timer := Cleared(timer);
    }

    // ------------------------------------------------------------ buzzing

    /**
     * waitForBuzzer: up to SettleRetries polls of the flag, succeeding at
     * the first one that reads the target. Each poll first takes the flag
     * value the notification context has stored by then (the oracle `seen`).
     */
    method WaitForBuzzer(target: bool) returns (r: Outcome)
      modifies this`polls, this`isBuzzingOnTouch
      ensures (r, LinkState()) == Sequencer.Settle(Env(), old(LinkState()), target)
    {
      ghost var o := Env();
      ghost var deadline := polls + Sequencer.SettleRetries;
      ghost var goal := Sequencer.Wait(o, LinkState(), target, deadline);
      var i := 0;
      while i < Sequencer.SettleRetries
        invariant 0 <= i <= Sequencer.SettleRetries && polls + Sequencer.SettleRetries == deadline + i
        invariant Sequencer.Wait(o, LinkState(), target, deadline) == goal
      {
        Sequencer.WaitStep(o, LinkState(), target, deadline);
        isBuzzingOnTouch := seen(polls);
        polls := polls + 1;
        if isBuzzingOnTouch == target {
          return Ok;
        }
        i := i + 1;
      }
      return Fail(SettleTimeout(target));
    }

    /** buzzAndRestore: toggle on, wait for on, toggle off, wait for off. */
    method BuzzAndRestore() returns (r: Outcome)
      modifies this`sent, this`polls, this`isBuzzingOnTouch
      ensures (r, LinkState()) == Sequencer.Cycle(Env(), old(LinkState()))
    {
      r := ToggleBuzzingOnTouch();
      if r.Fail? {
        return;
      }
      r := WaitForBuzzer(true);
      if r.Fail? {
        return;
      }
      r := ToggleBuzzingOnTouch();
      if r.Fail? {
        return;
      }
      r := WaitForBuzzer(false);
    }

    /** The function Buzz defers: toggle the buzzer back on and wait for it. */
    method RestoreBuzzer() returns (r: Outcome)
      modifies this`sent, this`polls, this`isBuzzingOnTouch
      ensures (r, LinkState()) == Sequencer.Restore(Env(), old(LinkState()))
    {
      r := ToggleBuzzingOnTouch();
      if r.Fail? {
        return;
      }
      r := WaitForBuzzer(true);
    }

    /** The loop of Buzz: count buzz cycles, returning at the first failure. */
    method BuzzCycles(count: nat) returns (r: Outcome)
      modifies this`sent, this`polls, this`isBuzzingOnTouch
      ensures (r, LinkState()) == Sequencer.Cycles(Env(), old(LinkState()), count)
    {
      ghost var o := Env();
      ghost var goal := Sequencer.Cycles(o, LinkState(), count);
      r := Ok;
      var i := 0;
      while i < count
        invariant 0 <= i <= count && r == Ok
        invariant Sequencer.Cycles(o, LinkState(), count - i) == goal
      {
        Sequencer.CyclesStep(o, LinkState(), count - i);
        r := BuzzAndRestore();
        if r.Fail? {
          return;
        }
        i := i + 1;
      }
    }

    /**
     * Buzz(n): refuses n <= 0 before any write; on success it has written
     * exactly 2n toggles and left the flag as it found it. The deferred
     * restore runs after the loop, and its failure replaces the result.
     */
    method Buzz(n: int) returns (r: Outcome)
      modifies this`sent, this`polls, this`isBuzzingOnTouch
      ensures (r, LinkState()) == Sequencer.Buzz(Env(), old(LinkState()), n)
      ensures n <= 0 ==> r == Fail(InvalidBeepCount(n)) && sent == old(sent)
      ensures r.Ok? ==> isBuzzingOnTouch == old(isBuzzingOnTouch)
                        && sent == old(sent) + Sequencer.Repeat(CmdToggleBuzzer, 2 * n)
    {
      if n <= 0 {
        return Fail(InvalidBeepCount(n));
      }
      ghost var o, l := Env(), LinkState();
      if !IsBuzzingOnTouch() {
        r := BuzzCycles(n);
      } else {
        r := ToggleBuzzingOnTouch();
        if r.Fail? {
          return;
        }
        r := WaitForBuzzer(false);
        if r.Fail? {
          return;
        }
        // the deferred restore is registered from here on
        r := BuzzCycles(n - 1);
        var d := RestoreBuzzer();
        if d.Fail? {
          r := d;
        }
        Sequencer.BuzzWithRestore(o, l, n);
      }
      assert (r, LinkState()) == Sequencer.Buzz(o, l, n);
      if r.Ok? {
        Sequencer.BuzzRestoresFlag(o, l, n);
      }
    }

    // ------------------------------------------------------------ reception

    /**
     * forceBuzzerSetting: before the first frame has been taken, with a
     * preference set that the reported flag contradicts, one toggle is
     * issued; its failure is only logged. The source reaches it only from
     * receiveData, and it is meaningful only as the step inside Accept,
     * which marks the frame as received right after it; called on its own
     * before the first frame it can leave Valid() false.
     */
    method ForceBuzzerSetting()
      modifies this`sent, this`forcedToggles
      ensures ForcesToggle(hasReceivedData, forceBuzzerSettingOnConnect, isBuzzingOnTouch) ==>
        sent == (if Ready() then old(sent) + [CmdToggleBuzzer] else old(sent))
        && forcedToggles == old(forcedToggles) + 1
      ensures !ForcesToggle(hasReceivedData, forceBuzzerSettingOnConnect, isBuzzingOnTouch) ==>
        sent == old(sent) && forcedToggles == old(forcedToggles)
    {
      if !hasReceivedData && forceBuzzerSettingOnConnect != Unset {
        if (isBuzzingOnTouch && forceBuzzerSettingOnConnect == Off)
           || (!isBuzzingOnTouch && forceBuzzerSettingOnConnect == On) {
          var _ := ToggleBuzzingOnTouch();
          forcedToggles := forcedToggles + 1;
        }
      }
    }

    /**
     * receiveData: a transport error or a frame that does not decode changes
     * nothing and dispatches nothing; a frame that decodes is accepted.
     * `now` is the clock reading of the time stamp.
     */
    method ReceiveData(req: seq<byte>, readErr: bool, now: int)
      requires Valid()
      modifies this`batteryLevel, this`isBuzzingOnTouch, this`unit, this`hasReceivedData,
               this`sent, this`events, this`forcedToggles
      ensures Valid()
      ensures readErr || DecodeFrame(req).None? ==> unchanged(this)
      ensures !readErr && DecodeFrame(req).Some? ==>
        var reading := DecodeFrame(req).value;
        batteryLevel == reading.batteryLevel && isBuzzingOnTouch == reading.buzzingOnTouch
        && unit == reading.unit && hasReceivedData
        && events == old(events) + DataDispatch(DataPoint(now, reading.unit, reading.weight))
        && sent == (if ForcesToggle(old(hasReceivedData), forceBuzzerSettingOnConnect, reading.buzzingOnTouch) && Ready()
                    then old(sent) + [CmdToggleBuzzer] else old(sent))
    {
      if readErr {
        return;
      }
      var frame := DecodeFrame(req);
      if frame.None? {
        return;
      }
      Accept(frame.value, now);
    }

    /**
     * The accepted-frame half of receiveData: stores battery, buzzer flag
     * and unit, runs the forced buzzer correction, marks data as received,
     * then dispatches the data point to the handler and then the channel.
     */
    method Accept(reading: Reading, now: int)
      requires Valid()
      modifies this`batteryLevel, this`isBuzzingOnTouch, this`unit, this`hasReceivedData,
               this`sent, this`events, this`forcedToggles
      ensures Valid()
      ensures batteryLevel == reading.batteryLevel && isBuzzingOnTouch == reading.buzzingOnTouch
        && unit == reading.unit && hasReceivedData
      ensures events == old(events) + DataDispatch(DataPoint(now, reading.unit, reading.weight))
      ensures sent == (if ForcesToggle(old(hasReceivedData), forceBuzzerSettingOnConnect, reading.buzzingOnTouch) && Ready()
                       then old(sent) + [CmdToggleBuzzer] else old(sent))
    {
      var point := DataPoint(now, reading.unit, reading.weight);
      batteryLevel := reading.batteryLevel;
      isBuzzingOnTouch := reading.buzzingOnTouch;
      unit := reading.unit;

      ForceBuzzerSetting();
      hasReceivedData := true;

      if hasDataHandler {
        events := events + [DataToHandler(point)];
      }
      if hasDataChan {
        events := events + [DataToChannel(point)];
      }
    }

    // ------------------------------------------------------------ connection status

    /**
     * setStatus: stores the status, hands it to the handler, then offers it
     * to the channel without blocking (dropped when no receiver is ready).
     */
    method SetStatus(state: State, err: Option<Error>)
      modifies this`connectionStatus, this`events, this`stateSends
      ensures connectionStatus == ConnectionStatus(err, state)
      ensures events == old(events) + StatusDispatch(old(stateSends), connectionStatus)
      ensures stateSends == old(stateSends) + (if hasStateChangeChan then 1 else 0)
    {
      connectionStatus := ConnectionStatus(err, state);
      if hasStateChangeHandler {
        events := events + [StatusToHandler(connectionStatus)];
      }
      if hasStateChangeChan {
        if stateChanReady(stateSends) {
          events := events + [StatusToChannel(connectionStatus)];
        }
        stateSends := stateSends + 1;
      }
    }

    /** onStateChanged: powered on starts scanning, powered off disconnects, anything else stops scanning. */
    method OnStateChanged(s: AdapterState)
      modifies this`connectionStatus, this`events, this`stateSends
      ensures s == PoweredOn ==>
        connectionStatus == ConnectionStatus(None, Scanning)
        && events == old(events) + StatusDispatch(old(stateSends), connectionStatus) + [ScanStarted]
        && stateSends == old(stateSends) + (if hasStateChangeChan then 1 else 0)
      ensures s == PoweredOff ==>
        connectionStatus == ConnectionStatus(None, Disconnected)
        && events == old(events) + StatusDispatch(old(stateSends), connectionStatus)
        && stateSends == old(stateSends) + (if hasStateChangeChan then 1 else 0)
      ensures s != PoweredOn && s != PoweredOff ==>
        connectionStatus == old(connectionStatus) && events == old(events) + [ScanStopped]
        && stateSends == old(stateSends)
    {
      match s {
        case PoweredOn =>
          SetStatus(Scanning, None);
          events := events + [ScanStarted];
        case PoweredOff =>
          SetStatus(Disconnected, None);
        case _ =>
          events := events + [ScanStopped];
      }
    }

    /** The discovery callback: a matching peripheral stops the scan and is connected. */
    method OnPeriphDiscovered(p: Peripheral)
      modifies this`events
      ensures ThisDevice(deviceID, deviceName, p) ==> events == old(events) + [ScanStopped, ConnectRequested(p)]
      ensures !ThisDevice(deviceID, deviceName, p) ==> events == old(events)
    {
      if !ThisDevice(deviceID, deviceName, p) {
        return;
      }
      events := events + [ScanStopped, ConnectRequested(p)];
    }

    /**
     * The connect steps up to the wait for release, as two nested loops:
     * every data characteristic of every data service is bound, then its
     * descriptors are discovered and it is subscribed; the first failure ends it.
     */
    method RunConnectSteps(p: Peripheral) returns (err: Option<Error>)
      modifies this`peripheral, this`characteristic
      ensures (err, Bound()) == ConnectSteps(p, old(Bound()))
    {
      if p.mtuFails {
        return Some(ConnectFailed(SetMtu));
      }
      if p.servicesFail {
        return Some(ConnectFailed(DiscoverServices));
      }
      var i := 0;
      while i < |p.services|
        invariant 0 <= i <= |p.services|
        invariant WalkServices(p, p.services[i..], Bound()) == WalkServices(p, p.services, old(Bound()))
      {
        var s := p.services[i];
        assert p.services[i..][0] == s && p.services[i..][1..] == p.services[i + 1..];
        if s.uuid == DataService {
          if s.characteristicsFail {
            return Some(ConnectFailed(DiscoverCharacteristics));
          }
          ghost var before := Bound();
          var j := 0;
          while j < |s.characteristics|
            invariant 0 <= j <= |s.characteristics|
            invariant WalkCharacteristics(p, s.characteristics[j..], Bound())
                      == WalkCharacteristics(p, s.characteristics, before)
          {
            var c := s.characteristics[j];
            assert s.characteristics[j..][0] == c && s.characteristics[j..][1..] == s.characteristics[j + 1..];
            if c.uuid == DataCharacteristic {
              peripheral := Some(p);
              characteristic := Some(c);
              if c.descriptorsFail {
                return Some(ConnectFailed(DiscoverDescriptors));
              }
              if c.subscribeFails {
                return Some(ConnectFailed(Subscribe));
              }
            }
            j := j + 1;
          }
        }
        i := i + 1;
      }
      return None;
    }

    /**
     * onPeriphConnected: for our peripheral, publish Connected, run the
     * connect steps, and then (the deferred function) cancel the connection
     * and publish Disconnected with the first failing step's error, or else
     * with the error the transport passed in. The wait for the release
     * signal between the two is not modelled: the call stands for the whole
     * connection.
     */
    method OnPeriphConnected(p: Peripheral, connErr: Option<Error>)
      modifies this`connectionStatus, this`events, this`stateSends, this`peripheral, this`characteristic
      ensures !ThisDevice(deviceID, deviceName, p) ==> unchanged(this)
      ensures ThisDevice(deviceID, deviceName, p) ==>
        var steps := ConnectSteps(p, old(Bound()));
        var mid := old(stateSends) + (if hasStateChangeChan then 1 else 0);
        Bound() == steps.1
        && connectionStatus == ConnectionStatus(if steps.0.Some? then steps.0 else connErr, Disconnected)
        && events == old(events) + StatusDispatch(old(stateSends), ConnectionStatus(None, Connected))
                     + [ConnectionCancelled(p)] + StatusDispatch(mid, connectionStatus)
        && stateSends == mid + (if hasStateChangeChan then 1 else 0)
    {
      if !ThisDevice(deviceID, deviceName, p) {
        return;
      }
      SetStatus(Connected, None);
      var stepErr := RunConnectSteps(p);
      var err := if stepErr.Some? then stepErr else connErr;
      events := events + [ConnectionCancelled(p)];
      SetStatus(Disconnected, err);
    }

    /** onPeriphDisconnected: for our peripheral, publish Scanning and scan again. */
    method OnPeriphDisconnected(p: Peripheral)
      modifies this`connectionStatus, this`events, this`stateSends
      ensures !ThisDevice(deviceID, deviceName, p) ==> unchanged(this)
      ensures ThisDevice(deviceID, deviceName, p) ==>
        connectionStatus == ConnectionStatus(None, Scanning)
        && events == old(events) + StatusDispatch(old(stateSends), connectionStatus) + [ScanStarted]
        && stateSends == old(stateSends) + (if hasStateChangeChan then 1 else 0)
    {
      if !ThisDevice(deviceID, deviceName, p) {
        return;
      }
      SetStatus(Scanning, None);
      events := events + [ScanStarted];
    }
  }
}
