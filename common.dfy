/** Value types shared by the connection manager, the provider and the screens. */
module Common {

  datatype Option<+T> = None | Some(value: T)

  /** How a call into the BLE library settles: it resolves with a value or it rejects.
      Every library call of the app is an input of this kind to the model. */
  datatype Answer<+T> = Answers(value: T) | Rejects

  /** The library call whose promise rejected. */
  datatype Failure =
    | ConnectRejected
    | DiscoveryRejected
    | CancelRejected
    | ServicesRejected
    | CharacteristicsRejected
    | ReadRejected
    | WriteRejected

  /** How an awaited operation without a value ends: it returns, or it throws. */
  datatype Outcome = Resolved | Rejected(failure: Failure)

  /** How an awaited operation with a value ends. */
  datatype Result<+T> = Ok(value: T) | Err(failure: Failure)

  /** A BLE peripheral as the library reports it: an identifier and an optional advertised name. */
  datatype Device = Device(id: string, name: Option<string>)

  /** `device.name` is truthy: present and not the empty string. */
  predicate HasName(d: Device) {
    d.name.Some? && d.name.value != ""
  }

  /** The screens registered with the stack navigator. */
  datatype Route =
    | DeviceScan
    | DeviceConnected
    | WiFiConfiguration
    | ConfigurationPending
    | ConfigurationSuccess

  /** A navigation call made by a screen. */
  datatype NavAction = Navigate(route: Route) | GoBack

  /** `n` copies of `x`. */
  function Repeat<T>(x: T, n: nat): (r: seq<T>)
    ensures |r| == n
    ensures forall i :: 0 <= i < n ==> r[i] == x
  {
    if n == 0 then [] else Repeat(x, n - 1) + [x]
  }
}
