/** The connection manager: the single holder of the connected device and of the
    notification callback, over the BLE library whose calls are inputs to the model. */
module BleService {
  import opened Common
  import NetworkList

  // ----- What the library reports -----

  /** One callback of a running device scan. */
  datatype ScanEvent = Discovered(device: Option<Device>) | ScanError

  /** A characteristic of a peripheral, with how its `read()` and `writeWithResponse()` settle. */
  datatype Characteristic = Characteristic(uuid: string, read: Answer<Option<string>>, acceptsWrite: bool)

  /** A GATT service of a peripheral, with how its `characteristics()` call settles. */
  datatype Service = Service(uuid: string, characteristics: Answer<seq<Characteristic>>)

  /** One callback of a characteristic monitor: an error, or a value (already decoded). */
  datatype MonitorEvent = MonitorError | ValueChanged(value: Option<string>)

  /** The callback a screen hands to `enableNotifications`, known by its identity. */
  datatype Listener = Listener(tag: nat)

  /** A characteristic operation the manager issued to the library. */
  datatype GattOp =
    | Monitor(service: string, characteristic: string)
    | Read(service: string, characteristic: string)
    | Write(service: string, characteristic: string, payload: string)

  // ----- Scanning -----

  /** The scan callback stops the scan at its first error: only the callbacks before it count. */
  function ScanStop(events: seq<ScanEvent>): (k: nat)
    ensures k <= |events|
    ensures forall j :: 0 <= j < k ==> !events[j].ScanError?
    ensures k < |events| ==> events[k].ScanError?
  {
    if events == [] || events[0].ScanError? then 0 else 1 + ScanStop(events[1..])
  }

  predicate HasId(ds: seq<Device>, id: string) {
    exists k :: 0 <= k < |ds| && ds[k].id == id
  }

  /** The callback reports a named device with identifier `id`. */
  predicate SeenNamed(e: ScanEvent, id: string) {
    e.Discovered? && e.device.Some? && HasName(e.device.value) && e.device.value.id == id
  }

  /** `devicesFound` after the given scan callbacks: a named device is pushed unless a device
      with its identifier is already there. */
  function Collected(events: seq<ScanEvent>): (found: seq<Device>)
    ensures forall d :: d in found ==> HasName(d)
    ensures forall i, j :: 0 <= i < j < |found| ==> found[i].id != found[j].id
  {
    if events == [] then []
    else
      var found := Collected(events[..|events| - 1]);
      var e := events[|events| - 1];
      if e.Discovered? && e.device.Some? && HasName(e.device.value) && !HasId(found, e.device.value.id)
      then found + [e.device.value]
      else found
  }

  /** Position of the first callback that reports a named device with identifier `id`,
      or `|events|` when there is none. */
  function FirstSeen(events: seq<ScanEvent>, id: string): (k: nat)
    ensures k <= |events|
    ensures k < |events| ==> SeenNamed(events[k], id)
    ensures forall j :: 0 <= j < k && j < |events| ==> !SeenNamed(events[j], id)
  {
    if events == [] then 0
    else
      var k := FirstSeen(events[..|events| - 1], id);
      if k < |events| - 1 then k
      else if SeenNamed(events[|events| - 1], id) then |events| - 1
      else |events|
  }

  /** One callback more: an identifier is held afterwards exactly when it was held before or
      the callback reports a named device with it. */
  lemma CollectedIdStep(events: seq<ScanEvent>, id: string)
    requires events != []
    requires HasId(Collected(events[..|events| - 1]), id) <==> FirstSeen(events[..|events| - 1], id) < |events| - 1
    ensures HasId(Collected(events), id) <==> FirstSeen(events, id) < |events|
  {
    var p, e := events[..|events| - 1], events[|events| - 1];
    var f, found := Collected(p), Collected(events);
    if HasId(f, id) {
      var k :| 0 <= k < |f| && f[k].id == id;
      assert found[k] == f[k];
    } else if e.Discovered? && e.device.Some? && HasName(e.device.value) && !HasId(f, e.device.value.id) {
      assert found == f + [e.device.value];
      if e.device.value.id == id {
        assert found[|f|].id == id;
      } else if HasId(found, id) {
        var k :| 0 <= k < |found| && found[k].id == id;
        assert k < |f| && f[k].id == id;
      }
    } else {
      assert found == f;
    }
  }

  /** The accumulated devices carry exactly the identifiers seen with a name. */
  lemma {:induction false} CollectedIds(events: seq<ScanEvent>)
    ensures forall id :: HasId(Collected(events), id) <==> FirstSeen(events, id) < |events|
  {
    if events != [] {
      CollectedIds(events[..|events| - 1]);
      forall id ensures HasId(Collected(events), id) <==> FirstSeen(events, id) < |events| {
        CollectedIdStep(events, id);
      }
    }
  }

  /** Each accumulated device is the device object of its identifier's first sighting, and
      the devices are in order of first sighting. */
  lemma {:induction false} CollectedFirstSightings(events: seq<ScanEvent>)
    ensures forall i :: 0 <= i < |Collected(events)| ==>
      FirstSeen(events, Collected(events)[i].id) < |events| &&
      events[FirstSeen(events, Collected(events)[i].id)] == Discovered(Some(Collected(events)[i]))
    ensures forall i, j :: 0 <= i < j < |Collected(events)| ==>
      FirstSeen(events, Collected(events)[i].id) < FirstSeen(events, Collected(events)[j].id)
  {
    if events != [] {
      var p, e := events[..|events| - 1], events[|events| - 1];
      CollectedFirstSightings(p);
      CollectedIds(p);
      var f, found := Collected(p), Collected(events);
      forall i | 0 <= i < |f| ensures FirstSeen(events, f[i].id) == FirstSeen(p, f[i].id) < |p| { }
      if found != f {
        var d := e.device.value;
        assert found == f + [d] && !HasId(f, d.id);
        assert FirstSeen(events, d.id) == |p|;
        forall i | 0 <= i < |found|
          ensures FirstSeen(events, found[i].id) < |events|
          ensures events[FirstSeen(events, found[i].id)] == Discovered(Some(found[i]))
        {
          if i < |f| {
            assert found[i] == f[i];
          }
        }
        forall i, j | 0 <= i < j < |found|
          ensures FirstSeen(events, found[i].id) < FirstSeen(events, found[j].id)
        {
          assert found[i] == f[i];
          if j < |f| {
            assert found[j] == f[j];
          }
        }
      }
    }
  }

  // ----- Reading and writing a characteristic -----

  /** The first characteristic of `cs` with the given uuid. */
  function FindCharacteristic(cs: seq<Characteristic>, uuid: string): (c: Option<Characteristic>)
    ensures c.Some? ==> c.value in cs && c.value.uuid == uuid
    ensures c.None? <==> forall x :: x in cs ==> x.uuid != uuid
  {
    if cs == [] then None
    else if cs[0].uuid == uuid then Some(cs[0])
    else FindCharacteristic(cs[1..], uuid)
  }

  /** The characteristic found is the first one with the uuid: every one before it differs. */
  lemma {:induction false} FindCharacteristicIsFirst(cs: seq<Characteristic>, uuid: string)
    ensures FindCharacteristic(cs, uuid).Some? ==>
      exists k :: 0 <= k < |cs| && cs[k] == FindCharacteristic(cs, uuid).value
        && forall j :: 0 <= j < k ==> cs[j].uuid != uuid
  {
    if cs != [] && cs[0].uuid != uuid {
      var c := FindCharacteristic(cs[1..], uuid);
      FindCharacteristicIsFirst(cs[1..], uuid);
      if c.Some? {
        var k :| 0 <= k < |cs[1..]| && cs[1..][k] == c.value && forall j :: 0 <= j < k ==> cs[1..][j].uuid != uuid;
        assert cs[k + 1] == c.value;
        forall j | 0 <= j < k + 1 ensures cs[j].uuid != uuid {
          if j > 0 {
            assert cs[j] == cs[1..][j - 1];
          }
        }
      }
    } else if cs != [] {
      assert cs[0] == FindCharacteristic(cs, uuid).value;
    }
  }

  /** The characteristic `readValue` reads: the first match of `cu` in the first service with
      uuid `su` that has one; rejects when a `characteristics()` call rejects on the way. */
  function ReadTarget(services: seq<Service>, su: string, cu: string): Answer<Option<Characteristic>>
  {
    if services == [] then Answers(None)
    else if services[0].uuid != su then ReadTarget(services[1..], su, cu)
    else match services[0].characteristics
      case Rejects => Rejects
      case Answers(cs) =>
        match FindCharacteristic(cs, cu)
        case Some(c) => Answers(Some(c))
        case None => ReadTarget(services[1..], su, cu)
  }

  /** `ReadTarget` on the services from position `i` on, one service unfolded. */
  lemma ReadTargetAt(services: seq<Service>, i: nat, su: string, cu: string)
    requires i < |services|
    ensures services[i].uuid != su ==> ReadTarget(services[i..], su, cu) == ReadTarget(services[i + 1..], su, cu)
    ensures services[i].uuid == su && services[i].characteristics.Rejects? ==> ReadTarget(services[i..], su, cu) == Rejects
    ensures services[i].uuid == su && services[i].characteristics.Answers? ==>
      ReadTarget(services[i..], su, cu) ==
        (if FindCharacteristic(services[i].characteristics.value, cu).Some?
         then Answers(FindCharacteristic(services[i].characteristics.value, cu))
         else ReadTarget(services[i + 1..], su, cu))
  {
    assert services[i..][0] == services[i] && services[i..][1..] == services[i + 1..];
  }

  /** `FindCharacteristic` on the characteristics from position `j` on, one unfolded. */
  lemma FindCharacteristicAt(cs: seq<Characteristic>, j: nat, uuid: string)
    requires j < |cs|
    ensures FindCharacteristic(cs[j..], uuid) == if cs[j].uuid == uuid then Some(cs[j]) else FindCharacteristic(cs[j + 1..], uuid)
  {
    assert cs[j..][0] == cs[j] && cs[j..][1..] == cs[j + 1..];
  }

  /** What `readValue` returns, given whether a device is held and how `services()` settles. */
  function ReadResult(held: bool, gatt: Answer<seq<Service>>, su: string, cu: string): Result<seq<string>>
  {
    if !held then Ok([])
    else match gatt
      case Rejects => Err(ServicesRejected)
      case Answers(services) =>
        match ReadTarget(services, su, cu)
        case Rejects => Err(CharacteristicsRejected)
        case Answers(None) => Ok([])
        case Answers(Some(c)) =>
          match c.read
          case Rejects => Err(ReadRejected)
          case Answers(v) => Ok(NetworkList.NetworksFromValue(v))
  }

  /** `readValue` issues a `read()` exactly when it finds its target characteristic. */
  predicate ReadIssued(held: bool, gatt: Answer<seq<Service>>, su: string, cu: string) {
    held && gatt.Answers? && ReadTarget(gatt.value, su, cu).Answers? && ReadTarget(gatt.value, su, cu).value.Some?
  }

  /** How many `writeWithResponse` calls a run issued and how it ended. */
  datatype WriteRun = WriteRun(issued: nat, outcome: Outcome)

  function After(k: nat, w: WriteRun): WriteRun {
    WriteRun(k + w.issued, w.outcome)
  }

  /** The inner loop of `writeValue`: every characteristic with uuid `cu` is written in turn,
      and the first rejected write ends the run. */
  function CharacteristicWrites(cs: seq<Characteristic>, cu: string): WriteRun {
    if cs == [] then WriteRun(0, Resolved)
    else if cs[0].uuid != cu then CharacteristicWrites(cs[1..], cu)
    else if !cs[0].acceptsWrite then WriteRun(1, Rejected(WriteRejected))
    else After(1, CharacteristicWrites(cs[1..], cu))
  }

  /** The outer loop of `writeValue`: every service with uuid `su` is visited in turn. */
  function ServiceWrites(services: seq<Service>, su: string, cu: string): WriteRun {
    if services == [] then WriteRun(0, Resolved)
    else if services[0].uuid != su then ServiceWrites(services[1..], su, cu)
    else match services[0].characteristics
      case Rejects => WriteRun(0, Rejected(CharacteristicsRejected))
      case Answers(cs) =>
        var w := CharacteristicWrites(cs, cu);
        if w.outcome.Rejected? then w else After(w.issued, ServiceWrites(services[1..], su, cu))
  }

  /** What `writeValue` does, given whether a device is held and how `services()` settles. */
  function WriteResult(held: bool, gatt: Answer<seq<Service>>, su: string, cu: string): WriteRun {
    if !held then WriteRun(0, Resolved)
    else match gatt
      case Rejects => WriteRun(0, Rejected(ServicesRejected))
      case Answers(services) => ServiceWrites(services, su, cu)
  }

  function CountUuid(cs: seq<Characteristic>, cu: string): nat {
    if cs == [] then 0 else (if cs[0].uuid == cu then 1 else 0) + CountUuid(cs[1..], cu)
  }

  /** The number of (service, characteristic) pairs with the two uuids among the services
      whose characteristics are listed. */
  function CountMatches(services: seq<Service>, su: string, cu: string): nat {
    if services == [] then 0
    else
      (if services[0].uuid == su && services[0].characteristics.Answers?
       then CountUuid(services[0].characteristics.value, cu) else 0)
      + CountMatches(services[1..], su, cu)
  }

  /** A run that resolves wrote to every matching characteristic (the loops do not stop at the
      first match); a rejected run wrote to no more than that. */
  lemma {:induction false} CharacteristicWritesCount(cs: seq<Characteristic>, cu: string)
    ensures CharacteristicWrites(cs, cu).outcome.Resolved? ==> CharacteristicWrites(cs, cu).issued == CountUuid(cs, cu)
    ensures CharacteristicWrites(cs, cu).issued <= CountUuid(cs, cu)
  {
    if cs != [] {
      CharacteristicWritesCount(cs[1..], cu);
    }
  }

  lemma {:induction false} ServiceWritesCount(services: seq<Service>, su: string, cu: string)
    ensures ServiceWrites(services, su, cu).outcome.Resolved? ==> ServiceWrites(services, su, cu).issued == CountMatches(services, su, cu)
    ensures ServiceWrites(services, su, cu).issued <= CountMatches(services, su, cu)
  {
    if services != [] {
      ServiceWritesCount(services[1..], su, cu);
      if services[0].uuid == su && services[0].characteristics.Answers? {
        CharacteristicWritesCount(services[0].characteristics.value, cu);
      }
    }
  }

  /** Without a service of uuid `su`, nothing is read and nothing is written. */
  lemma {:induction false} NoMatchingService(services: seq<Service>, su: string, cu: string)
    requires forall s :: s in services ==> s.uuid != su
    ensures ReadTarget(services, su, cu) == Answers(None)
    ensures ServiceWrites(services, su, cu) == WriteRun(0, Resolved)
  {
    if services != [] {
      assert services[0] in services;
      NoMatchingService(services[1..], su, cu);
    }
  }

  /** The characteristic `readValue` reads has uuid `cu` and belongs to a service of uuid `su`. */
  lemma {:induction false} ReadTargetMatches(services: seq<Service>, su: string, cu: string)
    requires ReadTarget(services, su, cu).Answers? && ReadTarget(services, su, cu).value.Some?
    ensures ReadTarget(services, su, cu).value.value.uuid == cu
    ensures exists s :: (s in services && s.uuid == su && s.characteristics.Answers?
      && ReadTarget(services, su, cu).value.value in s.characteristics.value)
  {
    var s := services[0];
    if s.uuid == su && s.characteristics.Answers? && FindCharacteristic(s.characteristics.value, cu).Some? {
      assert s in services;
    } else {
      ReadTargetMatches(services[1..], su, cu);
      var t :| t in services[1..] && t.uuid == su && t.characteristics.Answers?
        && ReadTarget(services[1..], su, cu).value.value in t.characteristics.value;
      assert t in services;
    }
  }

  // ----- The manager -----

  /** How `connectToDevice` settles: the connection, then service discovery, must resolve. */
  function LinkOutcome(link: Answer<Device>, discovered: bool): (o: Outcome)
    ensures o.Resolved? <==> link.Answers? && discovered
  {
    if link.Rejects? then Rejected(ConnectRejected)
    else if !discovered then Rejected(DiscoveryRejected)
    else Resolved
  }

  class BluetoothService {
    var connectedDevice: Option<Device>
    var notificationCallback: Option<Listener>
    /** Identifiers for which a disconnection handler was registered with the manager. */
    var disconnectHandlers: seq<string>
    /** The characteristic operations issued so far, oldest first. */
    var ops: seq<GattOp>

    constructor ()
      ensures connectedDevice == None && notificationCallback == None
      ensures disconnectHandlers == [] && ops == []
    {
      connectedDevice := None;
      notificationCallback := None;
      disconnectHandlers := [];
      ops := [];
    }

    /** `scanForDevices`: the devices found, given the callbacks that arrive before the timer
        stops the scan. */
    method ScanForDevices(events: seq<ScanEvent>) returns (found: seq<Device>)
      ensures found == Collected(events[..ScanStop(events)])
    {
      found := [];
      var i := 0;
      while i < |events| && !events[i].ScanError?
        invariant 0 <= i <= |events|
        invariant forall j :: 0 <= j < i ==> !events[j].ScanError?
        invariant found == Collected(events[..i])
      {
        var device := events[i].device;
        if device.Some? && HasName(device.value) {
          var known := HasId(found, device.value.id);
          if !known {
            found := found + [device.value];
          }
        }
        assert events[..i + 1][..i] == events[..i];
        i := i + 1;
      }
    }

    /** `connectToDevice`: the device is held only once both the connection and service
        discovery resolve; a disconnection handler is registered for it. The library connects
        by identifier, so a connection it answers is to the requested device's identifier. */
    method ConnectToDevice(device: Device, link: Answer<Device>, discovered: bool) returns (outcome: Outcome)
      requires link.Answers? ==> link.value.id == device.id
      modifies this
      ensures outcome == LinkOutcome(link, discovered)
      ensures outcome.Resolved? ==> connectedDevice.Some? && connectedDevice.value.id == device.id
      ensures connectedDevice == (if outcome.Resolved? then Some(link.value) else old(connectedDevice))
      ensures disconnectHandlers == old(disconnectHandlers) + (if outcome.Resolved? then [link.value.id] else [])
      ensures notificationCallback == old(notificationCallback) && ops == old(ops)
    {
      if link.Rejects? {
        return Rejected(ConnectRejected);
      }
      var connected := link.value;
      if !discovered {
        return Rejected(DiscoveryRejected);
      }
      connectedDevice := Some(connected);
      disconnectHandlers := disconnectHandlers + [connected.id];
      outcome := Resolved;
    }

    /** The library reports that device `id` disconnected: a handler registered for it clears
        the slot, whichever device the slot holds. */
    method OnDeviceDisconnected(id: string)
      modifies this
      ensures connectedDevice == (if id in disconnectHandlers then None else old(connectedDevice))
      ensures notificationCallback == old(notificationCallback)
      ensures disconnectHandlers == old(disconnectHandlers) && ops == old(ops)
    {
      if id in disconnectHandlers {
        connectedDevice := None;
      }
    }

    /** `disconnect`: nothing to do without a device; otherwise the slot is cleared once the
        cancellation resolves, and a rejected cancellation leaves it. */
    method Disconnect(cancelled: bool) returns (outcome: Outcome)
      modifies this
      ensures old(connectedDevice).None? ==> outcome == Resolved
      ensures old(connectedDevice).Some? ==> outcome == (if cancelled then Resolved else Rejected(CancelRejected))
      ensures connectedDevice == (if outcome.Resolved? then None else old(connectedDevice))
      ensures notificationCallback == old(notificationCallback)
      ensures disconnectHandlers == old(disconnectHandlers) && ops == old(ops)
    {
      outcome := Resolved;
      if connectedDevice.Some? {
        if !cancelled {
          return Rejected(CancelRejected);
        }
        connectedDevice := None;
      }
    }

    /** `enableNotifications`: without a device nothing happens; otherwise the callback replaces
        the one in the single slot and a monitor is started. */
    method EnableNotifications(su: string, cu: string, callback: Listener)
      modifies this
      ensures notificationCallback == (if old(connectedDevice).Some? then Some(callback) else old(notificationCallback))
      ensures ops == old(ops) + (if old(connectedDevice).Some? then [Monitor(su, cu)] else [])
      ensures connectedDevice == old(connectedDevice) && disconnectHandlers == old(disconnectHandlers)
    {
      if connectedDevice.None? {
        return;
      }
      notificationCallback := Some(callback);
      ops := ops + [Monitor(su, cu)];
    }

    /** The monitor callback: a non-empty value goes to the callback currently in the slot;
        an error, a missing or empty value, or an empty slot delivers nothing. */
    function Dispatch(event: MonitorEvent): (delivery: Option<(Listener, string)>)
      reads this
      ensures event.MonitorError? || notificationCallback.None? ==> delivery.None?
      ensures event.ValueChanged? && (event.value.None? || event.value.value == "") ==> delivery.None?
      ensures event.ValueChanged? && event.value.Some? && event.value.value != "" && notificationCallback.Some? ==>
        delivery == Some((notificationCallback.value, event.value.value))
    {
      if event.ValueChanged? && event.value.Some? && event.value.value != "" && notificationCallback.Some?
      then Some((notificationCallback.value, event.value.value))
      else None
    }

    /** `writeValue`: the payload goes to every matching characteristic of every matching
        service, in order, until a call rejects; without a device nothing happens. */
    method WriteValue(su: string, cu: string, data: string, gatt: Answer<seq<Service>>) returns (outcome: Outcome)
      modifies this`ops
      ensures outcome == WriteResult(connectedDevice.Some?, gatt, su, cu).outcome
      ensures ops == old(ops) + Repeat(Write(su, cu, data), WriteResult(connectedDevice.Some?, gatt, su, cu).issued)
    {
      if connectedDevice.None? {
        return Resolved;
      }
      if gatt.Rejects? {
        return Rejected(ServicesRejected);
      }
      var services := gatt.value;
      var op := Write(su, cu, data);
      var written := 0;
      var i := 0;
      while i < |services|
        invariant 0 <= i <= |services|
        invariant ServiceWrites(services, su, cu) == After(written, ServiceWrites(services[i..], su, cu))
        invariant ops == old(ops) + Repeat(op, written)
      {
        assert services[i..][0] == services[i] && services[i..][1..] == services[i + 1..];
        if services[i].uuid == su {
          if services[i].characteristics.Rejects? {
            return Rejected(CharacteristicsRejected);
          }
          var cs := services[i].characteristics.value;
          var base := written;
          var j := 0;
          while j < |cs|
            invariant 0 <= j <= |cs|
            invariant base <= written
            invariant CharacteristicWrites(cs, cu) == After(written - base, CharacteristicWrites(cs[j..], cu))
            invariant ops == old(ops) + Repeat(op, written)
          {
            assert cs[j..][0] == cs[j] && cs[j..][1..] == cs[j + 1..];
            if cs[j].uuid == cu {
              ops := ops + [op];
              written := written + 1;
              if !cs[j].acceptsWrite {
                return Rejected(WriteRejected);
              }
            }
            j := j + 1;
          }
        }
        i := i + 1;
      }
      outcome := Resolved;
    }

    /** `readValue`: the network list parsed from the first matching characteristic; no device
        or no matching pair gives the empty list. */
    method ReadValue(su: string, cu: string, gatt: Answer<seq<Service>>) returns (r: Result<seq<string>>)
      modifies this`ops
      ensures r == ReadResult(connectedDevice.Some?, gatt, su, cu)
      ensures ops == old(ops) + (if ReadIssued(connectedDevice.Some?, gatt, su, cu) then [Read(su, cu)] else [])
    {
      if connectedDevice.None? {
        return Ok([]);
      }
      if gatt.Rejects? {
        return Err(ServicesRejected);
      }
      var services := gatt.value;
      var i := 0;
      while i < |services|
        invariant 0 <= i <= |services|
        invariant ReadTarget(services, su, cu) == ReadTarget(services[i..], su, cu)
        invariant ops == old(ops)
      {
        ReadTargetAt(services, i, su, cu);
        if services[i].uuid == su {
          if services[i].characteristics.Rejects? {
            return Err(CharacteristicsRejected);
          }
          var cs := services[i].characteristics.value;
          var j := 0;
          while j < |cs|
            invariant 0 <= j <= |cs|
            invariant FindCharacteristic(cs, cu) == FindCharacteristic(cs[j..], cu)
            invariant ops == old(ops)
          {
            FindCharacteristicAt(cs, j, cu);
            if cs[j].uuid == cu {
              ops := ops + [Read(su, cu)];
              var answer := cs[j].read;
              if answer.Rejects? {
                return Err(ReadRejected);
              }
              return Ok(NetworkList.NetworksFromValue(answer.value));
            }
            j := j + 1;
          }
          assert cs[|cs|..] == [];
        }
        i := i + 1;
      }
      assert services[|services|..] == [];
      r := Ok([]);
    }

    /** `reset`: both slots are cleared. */
    method Reset()
      modifies this
      ensures connectedDevice == None && notificationCallback == None
      ensures disconnectHandlers == old(disconnectHandlers) && ops == old(ops)
    {
      connectedDevice := None;
      notificationCallback := None;
    }
  }
}
