/** The app-level connection state shared by the screens, and the watcher that tries to
    reconnect after an unexpected disconnection. */
module BleContext {
  import opened Common
  import opened BleService

  /** The reconnection loop starts no attempt once this many milliseconds have passed. */
  const RECONNECT_WINDOW_MS: nat := 20000
  /** The wait after each failed reconnection attempt, in milliseconds. */
  const RETRY_BACKOFF_MS: nat := 2000

  /** One reconnection attempt: how the library answers the connection and the service
      discovery, and how long the attempt takes before any back-off. */
  datatype ReconnectAttempt = ReconnectAttempt(link: Answer<Device>, discovered: bool, took: nat)

  predicate Reconnects(a: ReconnectAttempt) {
    a.link.Answers? && a.discovered
  }

  /** The clock reading at which attempt `k` starts when every earlier attempt failed: each
      failure costs its own duration and the back-off. */
  function AttemptStart(start: nat, attempts: nat -> ReconnectAttempt, k: nat): (t: nat)
    ensures t >= start + RETRY_BACKOFF_MS * k
  {
    if k == 0 then start
    else AttemptStart(start, attempts, k - 1) + attempts(k - 1).took + RETRY_BACKOFF_MS
  }

  /** How many attempts the loop makes in all when attempt `k` is the next to be considered. */
  function AttemptsFrom(start: nat, attempts: nat -> ReconnectAttempt, k: nat): nat
    decreases RECONNECT_WINDOW_MS + start - AttemptStart(start, attempts, k)
  {
    if AttemptStart(start, attempts, k) - start >= RECONNECT_WINDOW_MS then k
    else if Reconnects(attempts(k)) then k + 1
    else AttemptsFrom(start, attempts, k + 1)
  }

  /** How many attempts the reconnection loop started at `start` makes. */
  function AttemptsMade(start: nat, attempts: nat -> ReconnectAttempt): nat {
    AttemptsFrom(start, attempts, 0)
  }

  lemma {:induction false} AttemptsFromShape(start: nat, attempts: nat -> ReconnectAttempt, k: nat)
    ensures k <= AttemptsFrom(start, attempts, k)
    ensures AttemptStart(start, attempts, k) - start < RECONNECT_WINDOW_MS ==> k < AttemptsFrom(start, attempts, k)
    ensures forall j :: k <= j < AttemptsFrom(start, attempts, k) - 1 ==> !Reconnects(attempts(j))
    ensures forall j :: k <= j < AttemptsFrom(start, attempts, k) ==>
      AttemptStart(start, attempts, j) - start < RECONNECT_WINDOW_MS
    ensures var n := AttemptsFrom(start, attempts, k);
      (n > k && Reconnects(attempts(n - 1))) || AttemptStart(start, attempts, n) - start >= RECONNECT_WINDOW_MS
    decreases RECONNECT_WINDOW_MS + start - AttemptStart(start, attempts, k)
  {
    var n := AttemptsFrom(start, attempts, k);
    if AttemptStart(start, attempts, k) - start >= RECONNECT_WINDOW_MS {
      assert n == k;
    } else if Reconnects(attempts(k)) {
      assert n == k + 1;
    } else {
      assert n == AttemptsFrom(start, attempts, k + 1);
      AttemptsFromShape(start, attempts, k + 1);
    }
  }

  /** The reconnection loop makes between one and ten attempts; it stops at the first attempt
      that reconnects; every attempt starts within the window; and it gives up without a
      reconnection only once the window has passed. */
  lemma RetryLoopShape(start: nat, attempts: nat -> ReconnectAttempt)
    ensures 1 <= AttemptsMade(start, attempts) <= 10
    ensures forall j :: 0 <= j < AttemptsMade(start, attempts) - 1 ==> !Reconnects(attempts(j))
    ensures forall j :: 0 <= j < AttemptsMade(start, attempts) ==>
      AttemptStart(start, attempts, j) - start < RECONNECT_WINDOW_MS
    ensures !Reconnects(attempts(AttemptsMade(start, attempts) - 1)) ==>
      AttemptStart(start, attempts, AttemptsMade(start, attempts)) - start >= RECONNECT_WINDOW_MS
  {
    AttemptsFromShape(start, attempts, 0);
    var n := AttemptsMade(start, attempts);
    assert AttemptStart(start, attempts, n - 1) - start < RECONNECT_WINDOW_MS;
  }

  class BleProvider {
    /** The application-wide connection manager. */
    const service: BluetoothService
    /** The callback this provider registers: it stores every message it is given. */
    const listener: Listener
    var notificationMessage: Option<string>
    var connectedDeviceState: Option<Device>
    var connecting: bool
    var reconnecting: bool
    var disconnectedUnexpectedly: bool
    var lastDevice: Option<Device>

    constructor (service: BluetoothService, listener: Listener)
      ensures this.service == service && this.listener == listener
      ensures notificationMessage == None && connectedDeviceState == None && lastDevice == None
      ensures !connecting && !reconnecting && !disconnectedUnexpectedly
    {
      this.service := service;
      this.listener := listener;
      notificationMessage := None;
      connectedDeviceState := None;
      connecting := false;
      reconnecting := false;
      disconnectedUnexpectedly := false;
      lastDevice := None;
    }

    /** The state `reset` leaves behind (it does not touch `lastDevice`). */
    predicate IsReset()
      reads this, service
    {
      && notificationMessage == None && connectedDeviceState == None
      && !connecting && !reconnecting && !disconnectedUnexpectedly
      && service.connectedDevice == None && service.notificationCallback == None
    }

    /** The watcher's test for an unexpected disconnection. */
    predicate WatcherFires()
      reads this, service
    {
      && lastDevice.Some? && service.connectedDevice.None?
      && !connecting && !reconnecting && connectedDeviceState.Some?
    }

    /** `reset`, the single rollback: clears the manager, the message, the device and the flags. */
    method Reset()
      modifies this, service
      ensures IsReset() && !WatcherFires()
      ensures lastDevice == old(lastDevice)
      ensures service.disconnectHandlers == old(service.disconnectHandlers) && service.ops == old(service.ops)
    {
      service.Reset();
      notificationMessage := None;
      connectedDeviceState := None;
      connecting := false;
      reconnecting := false;
      disconnectedUnexpectedly := false;
    }

    /** `connectToDevice`: on success the state holds the manager's device and remembers the
        requested one; on failure everything is reset; `connecting` is false either way. */
    method ConnectToDevice(device: Device, link: Answer<Device>, discovered: bool) returns (outcome: Outcome)
      requires link.Answers? ==> link.value.id == device.id
      modifies this, service
      ensures outcome == LinkOutcome(link, discovered)
      ensures !connecting
      ensures outcome.Resolved? ==>
        && connectedDeviceState == service.connectedDevice == Some(link.value)
        && link.value.id == device.id
        && lastDevice == Some(device)
        && notificationMessage == old(notificationMessage)
        && reconnecting == old(reconnecting)
        && disconnectedUnexpectedly == old(disconnectedUnexpectedly)
        && service.notificationCallback == old(service.notificationCallback)
      ensures outcome.Rejected? ==> IsReset() && lastDevice == old(lastDevice)
      ensures service.ops == old(service.ops)
    {
      connecting := true;
      outcome := service.ConnectToDevice(device, link, discovered);
      if outcome.Resolved? {
        connectedDeviceState := service.connectedDevice;
        lastDevice := Some(device);
      } else {
        Reset();
      }
      connecting := false;
    }

    /** `disconnect`: once the manager's disconnection resolves the state is reset, so the
        watcher cannot fire; a rejected cancellation propagates before the reset. */
    method Disconnect(cancelled: bool) returns (outcome: Outcome)
      modifies this, service
      ensures outcome == (if old(service.connectedDevice).Some? && !cancelled then Rejected(CancelRejected) else Resolved)
      ensures outcome.Resolved? ==> IsReset() && !WatcherFires()
      ensures outcome.Rejected? ==> unchanged(this)
      ensures outcome.Rejected? ==>
        service.connectedDevice == old(service.connectedDevice) && service.notificationCallback == old(service.notificationCallback)
      ensures lastDevice == old(lastDevice) && service.ops == old(service.ops)
    {
      outcome := service.Disconnect(cancelled);
      if outcome.Rejected? {
        return;
      }
      Reset();
    }

    /** `enableNotifications`: registers this provider's callback with the manager. */
    method EnableNotifications(su: string, cu: string)
      modifies service
      ensures service.notificationCallback ==
        (if old(service.connectedDevice).Some? then Some(listener) else old(service.notificationCallback))
      ensures service.ops == old(service.ops) + (if old(service.connectedDevice).Some? then [Monitor(su, cu)] else [])
      ensures service.connectedDevice == old(service.connectedDevice)
    {
      service.EnableNotifications(su, cu, listener);
    }

    /** A monitor callback: a non-empty value handed to this provider's callback overwrites
        `notificationMessage`. */
    method ReceiveNotification(event: MonitorEvent)
      modifies this`notificationMessage
      ensures notificationMessage ==
        (if event.ValueChanged? && event.value.Some? && event.value.value != ""
            && service.notificationCallback == Some(listener)
         then Some(event.value.value) else old(notificationMessage))
    {
      var delivery := service.Dispatch(event);
      if delivery.Some? && delivery.value.0 == listener {
        notificationMessage := Some(delivery.value.1);
      }
    }

    /** `writeValue`: passed to the manager. */
    method WriteValue(su: string, cu: string, data: string, gatt: Answer<seq<Service>>) returns (outcome: Outcome)
      modifies service`ops
      ensures outcome == WriteResult(service.connectedDevice.Some?, gatt, su, cu).outcome
      ensures service.ops == old(service.ops) + Repeat(Write(su, cu, data), WriteResult(service.connectedDevice.Some?, gatt, su, cu).issued)
    {
      outcome := service.WriteValue(su, cu, data, gatt);
    }

    /** `readValue`: passed to the manager. */
    method ReadValue(su: string, cu: string, gatt: Answer<seq<Service>>) returns (r: Result<seq<string>>)
      modifies service`ops
      ensures r == ReadResult(service.connectedDevice.Some?, gatt, su, cu)
      ensures service.ops == old(service.ops) + (if ReadIssued(service.connectedDevice.Some?, gatt, su, cu) then [Read(su, cu)] else [])
    {
      r := service.ReadValue(su, cu, gatt);
    }

    /** One run of the watcher's interval callback at clock reading `now`. When it detects an
        unexpected disconnection it retries `lastDevice` until an attempt reconnects or the
        window has passed; on giving up it resets. Each attempt the library answers is a
        connection to `lastDevice`'s identifier. */
    method WatchTick(now: nat, attempts: nat -> ReconnectAttempt) returns (fired: bool, made: nat, reconnected: bool)
      requires lastDevice.Some? ==>
        forall k :: attempts(k).link.Answers? ==> attempts(k).link.value.id == lastDevice.value.id
      modifies this, service
      ensures service.ops == old(service.ops)
      ensures fired == old(WatcherFires())
      ensures !fired ==> unchanged(this) && unchanged(service)
      ensures fired ==> made == AttemptsMade(now, attempts) && made >= 1
      ensures fired ==> reconnected == Reconnects(attempts(made - 1))
      ensures fired ==> !reconnecting && !disconnectedUnexpectedly && lastDevice == old(lastDevice)
      ensures fired && reconnected ==>
        && connectedDeviceState == service.connectedDevice == Some(attempts(made - 1).link.value)
        && notificationMessage == old(notificationMessage) && !connecting
      ensures fired && !reconnected ==> IsReset()
      ensures fired && reconnected ==>
        && connectedDeviceState.Some? && connectedDeviceState.value.id == old(lastDevice).value.id
        && service.notificationCallback == old(service.notificationCallback)
    {
      made, reconnected := 0, false;
      fired := WatcherFires();
      if !fired {
        return;
      }
      var device := lastDevice.value;
      disconnectedUnexpectedly := true;
      reconnecting := true;
      var start := now;
      var clock := now;
      while clock - start < RECONNECT_WINDOW_MS && !reconnected
        invariant !reconnected ==> clock == AttemptStart(start, attempts, made)
        invariant !reconnected ==> AttemptsFrom(start, attempts, made) == AttemptsMade(start, attempts)
        invariant !reconnected && made > 0 ==> !Reconnects(attempts(made - 1))
        invariant reconnected ==> made == AttemptsMade(start, attempts) && made >= 1
        invariant reconnected ==> Reconnects(attempts(made - 1))
        invariant reconnected ==> connectedDeviceState == service.connectedDevice == Some(attempts(made - 1).link.value)
        invariant lastDevice == old(lastDevice) && notificationMessage == old(notificationMessage)
        invariant reconnected ==> attempts(made - 1).link.value.id == device.id
        invariant service.ops == old(service.ops) && service.notificationCallback == old(service.notificationCallback)
        invariant !connecting
        decreases !reconnected, RECONNECT_WINDOW_MS - (clock - start)
      {
        var attempt := attempts(made);
        var outcome := service.ConnectToDevice(device, attempt.link, attempt.discovered);
        made := made + 1;
        if outcome.Resolved? {
          // a resolved connection leaves the manager holding the device it connected
          reconnected := true;
          connectedDeviceState := service.connectedDevice;
        } else {
          clock := clock + attempt.took + RETRY_BACKOFF_MS;
        }
      }
      if !reconnected {
        Reset();
      }
      reconnecting := false;
      disconnectedUnexpectedly := false;
    }
  }
}
