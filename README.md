# Wi-Fi provisioning over BLE — a Dafny model

The app connects a phone to a nearby device over Bluetooth Low Energy and reads the list of
Wi-Fi networks the device sees. It then writes an SSID and a password to the device and waits
for the device to notify `SUCCESS` or `FAILED`. The model covers the four parts of the app
that hold logic of their own:

- **The connection manager** (`BluetoothService`, module `BleService` in `ble_service.dfy`).
  It is one object with two slots: the connected device and the notification callback.
  - Its operations connect, disconnect, reset, enable notifications, write and read.
  - It keeps a scan accumulator that de-duplicates devices by identifier.
  - The read operation turns the Wi-Fi characteristic's value into network names. That parser
    is the pure module `NetworkList` (`network_list.dfy`): split on `,`, keep the first
    occurrence of each field, drop blank fields.
- **The app-level connection state** (`BleProvider`, module `BleContext` in
  `ble_context.dfy`).
  - It has six state slots, and `reset` is its single rollback.
  - A watcher polls for an unexpected disconnection. When it finds one, it retries the last
    device for 20 000 ms, waiting 2 000 ms after each failed attempt.
- **The pending screen** (`ConfigurationPendingScreen`, module `PendingScreen` in
  `pending_screen.dfy`).
  - An `error` flag is set by the `FAILED` sentinel, or by a 60 000 ms timer that every new
    message re-arms.
  - The `SUCCESS` sentinel navigates onward.
  - A retry button exists only in the error state.
- **The Wi-Fi configuration screen** (`WiFiConfigurationScreen`, module `WiFiConfiguration` in
  `wifi_screen.dfy`).
  - It fetches the network list.
  - It sends `SSID NUL password` after enabling notifications, and navigates only when the
    write resolves.

Shared types are in `common.dfy` (module `Common`).

Calls into the BLE library are parameters of the operations that make them. Each one says how
the call settles:
- `Answer<T>`, either `Answers(value)` or `Rejects`, for connect, `services()`,
  `characteristics()` and `read()`;
- a boolean for service discovery, for `cancelDeviceConnection` and for each
  characteristic's `writeWithResponse`.

The library connects by identifier (`bluetoothService.ts:40`). So a connection it answers is
to the requested identifier, and the connect operations and the watcher require that of their
inputs.

A scan is given the list of scan callbacks that arrive before its timer fires. The watcher is
given its start time and the sequence of attempts, where each attempt carries its own outcome
and duration. The manager records the characteristic operations it issues (monitor, read,
write) in an `ops` log, so contracts can state which operations were issued and in what order.

Three behaviours of the code worth noting:
- A scan stops early at the first error callback (`bluetoothService.ts:18-21`).
- `disconnect` in the provider skips `reset` when the manager's cancellation rejects, because
  the rejection propagates first (`BleContext.tsx:63-67`).
- A write with no device held in the manager resolves without writing anything. In that case
  the configuration screen still navigates to the pending screen
  (`bluetoothService.ts:82`, `WiFiConfigurationScreen.tsx:57-60`).

## Model

| member | source | states |
|---|---|---|
| NetworkList.Split | src/services/bluetoothService.ts:106 | `split(',')` yields at least one field (the empty string gives one empty field) and no field contains the separator |
| NetworkList.SplitJoin | src/services/bluetoothService.ts:106 | splitting the join of separator-free fields gives the fields back |
| NetworkList.JoinSplit | src/services/bluetoothService.ts:106 | joining the split of a string gives the string back |
| NetworkList.Dedup | src/services/bluetoothService.ts:108 | `[...new Set(xs)]` has no duplicates and holds exactly the elements of `xs` |
| NetworkList.DedupFirstOccurrenceOrder | src/services/bluetoothService.ts:108 | the de-duplicated list is ordered by first occurrence in the input |
| NetworkList.DropBlank | src/services/bluetoothService.ts:108 | the filter keeps exactly the entries that are not empty after trimming |
| NetworkList.DropBlankKeepsOrder | src/services/bluetoothService.ts:108 | filtering keeps whatever order the list had, so it keeps the first-occurrence order |
| NetworkList.ParseNetworks | src/services/bluetoothService.ts:106-108 | a name is in the result iff it is a comma-separated field of the value and not blank; no name contains a comma or is blank; names are not trimmed |
| NetworkList.ParseNetworksOrder | src/services/bluetoothService.ts:106-108 | parsed names are distinct and in the order of their first occurrence among the fields |
| NetworkList.NetworksFromValue | src/services/bluetoothService.ts:105-107 | a missing or empty value gives no networks; any other value is parsed |
| NetworkList.DedupOfDistinct | src/services/bluetoothService.ts:108 | de-duplicating a duplicate-free list changes nothing |
| NetworkList.DropBlankOfNonBlank | src/services/bluetoothService.ts:108 | filtering a list with no blank entries changes nothing |
| NetworkList.ParseJoinedNetworks | src/services/bluetoothService.ts:106-108 | parsing the comma-join of a parsed list gives the same list |
| BleService.ScanStop | src/services/bluetoothService.ts:17-22 | only the callbacks before the first scan error count, and the first one not counted is that error |
| BleService.Collected | src/services/bluetoothService.ts:23-26 | the accumulated devices all have a non-empty name and no two share an identifier |
| BleService.CollectedIds | src/services/bluetoothService.ts:23-26 | an identifier is accumulated iff some callback reported a named device with it |
| BleService.CollectedFirstSightings | src/services/bluetoothService.ts:23-26 | each accumulated device is the device of its identifier's first sighting, and devices are in order of first sighting |
| BleService.BluetoothService.ScanForDevices | src/services/bluetoothService.ts:14-37 | the loop returns the accumulation over the callbacks before the first error |
| BleService.LinkOutcome | src/services/bluetoothService.ts:40-41 | connecting resolves iff both the connection and service discovery resolve |
| BleService.BluetoothService.constructor | src/services/bluetoothService.ts:7-8 | both slots start empty |
| BleService.BluetoothService.ConnectToDevice | src/services/bluetoothService.ts:39-48 | the device is stored only after both steps resolve, it has the requested identifier, and a handler is registered for it; a failure leaves the slot unchanged |
| BleService.BluetoothService.OnDeviceDisconnected | src/services/bluetoothService.ts:45-47 | a disconnection reported for a registered identifier clears the slot |
| BleService.BluetoothService.Disconnect | src/services/bluetoothService.ts:50-55 | with no device it does nothing and resolves; a resolved cancel empties the slot; a rejected cancel leaves it |
| BleService.BluetoothService.Dispatch | src/services/bluetoothService.ts:68-77 | a monitor error, a missing or empty value, or an empty callback slot delivers nothing; any other value is delivered to the callback currently in the slot |
| BleService.BluetoothService.EnableNotifications | src/services/bluetoothService.ts:61-79 | with no device it does nothing; otherwise the callback replaces the single slot and one monitor is started |
| BleService.FindCharacteristic | src/services/bluetoothService.ts:102-103 | the match found has the requested uuid; none is found iff no characteristic has it |
| BleService.FindCharacteristicIsFirst | src/services/bluetoothService.ts:102-103 | the match found is the first characteristic with the requested uuid: every characteristic before it has another uuid |
| BleService.CharacteristicWritesCount | src/services/bluetoothService.ts:87-91 | a resolved inner loop wrote every matching characteristic, and no loop writes more than the matches |
| BleService.ServiceWritesCount | src/services/bluetoothService.ts:84-93 | a resolved write wrote every matching (service, characteristic) pair, and no write exceeds that |
| BleService.BluetoothService.WriteValue | src/services/bluetoothService.ts:81-94 | the nested loops issue exactly the writes and outcome the write specification gives; with no device nothing is written and the call resolves |
| BleService.NoMatchingService | src/services/bluetoothService.ts:99-113 | with no service of the requested uuid, nothing is read (the result is `[]`) and nothing is written |
| BleService.ReadTargetMatches | src/services/bluetoothService.ts:99-104 | the characteristic read has the requested uuid and belongs to a service with the requested uuid |
| BleService.BluetoothService.ReadValue | src/services/bluetoothService.ts:96-114 | the loops return the parsed value of the first matching characteristic, or `[]` with no device or no match, and issue one read exactly when the search reaches a matching characteristic |
| BleService.BluetoothService.Reset | src/services/bluetoothService.ts:116-119 | both slots are emptied |
| BleContext.BleProvider.constructor | src/BleContext.tsx:38-43 | all six slots start null or false |
| BleContext.BleProvider.Reset | src/BleContext.tsx:69-76 | the message, the device and the three flags are cleared, and so is the manager; `lastDevice` is untouched and the watcher cannot fire |
| BleContext.BleProvider.ConnectToDevice | src/BleContext.tsx:49-61 | on success the state holds the manager's device, which has the requested identifier, and `lastDevice` is the requested device; on failure the state is the reset state; `connecting` is false either way |
| BleContext.BleProvider.Disconnect | src/BleContext.tsx:63-67 | when the manager's disconnect resolves the state is the reset state and the watcher guard is false; a rejection changes nothing |
| BleContext.BleProvider.EnableNotifications | src/BleContext.tsx:78-82 | the provider's own callback goes into the manager's slot when a device is held |
| BleContext.BleProvider.ReceiveNotification | src/BleContext.tsx:78-81 | each delivered notification overwrites `notificationMessage` with the latest message |
| BleContext.BleProvider.WriteValue | src/BleContext.tsx:84-86 | forwards to the manager with the manager's write contract |
| BleContext.BleProvider.ReadValue | src/BleContext.tsx:88-90 | forwards to the manager with the manager's read contract |
| BleContext.AttemptStart | src/BleContext.tsx:114-126 | attempt `k` starts at least `2000 * k` ms after the loop starts |
| BleContext.AttemptsFromShape | src/BleContext.tsx:114-127 | from any attempt on, the loop stops at the first success or once the window has passed, and starts every attempt within the window |
| BleContext.RetryLoopShape | src/BleContext.tsx:110-127 | the loop makes between 1 and 10 attempts, stops at the first success, starts no attempt after 20 000 ms, and gives up only after the window |
| BleContext.BleProvider.WatchTick | src/BleContext.tsx:102-136 | the watcher acts iff the five-part guard holds; it then makes the attempts the retry specification gives; on success the state holds the reconnected device, which has `lastDevice`'s identifier, and the manager's callback slot is kept; on giving up it is the reset state; both flags are false afterwards; the operation log is untouched |
| PendingScreen.TimeoutIsError | src/screens/ConfigurationPendingScreen.tsx:18 | the timer's test holds exactly when the message is neither sentinel |
| PendingScreen.Mount | src/screens/ConfigurationPendingScreen.tsx:13-33 | on mount the error is false unless the message is `FAILED`, the timer is armed for 60 000 ms, and `SUCCESS` navigates at once |
| PendingScreen.Step | src/screens/ConfigurationPendingScreen.tsx:16-49 | the error flag is never cleared; a new message re-arms the timer, `SUCCESS` navigates, `FAILED` raises the error, and any other message does neither; the due timer raises the error iff no sentinel arrived; retry goes back only in the error state |
| PendingScreen.ErrorStaysRaised | src/screens/ConfigurationPendingScreen.tsx:13-31 | over any sequence of events a raised error stays raised and no navigation is undone |
| PendingScreen.NoGoBackWithoutError | src/screens/ConfigurationPendingScreen.tsx:38-49 | if the error never rises, no sequence of events goes back |
| PendingScreen.ConfigurationPendingScreen.constructor | src/screens/ConfigurationPendingScreen.tsx:13-33 | the mounted screen is in the mount state |
| PendingScreen.ConfigurationPendingScreen.Render | src/screens/ConfigurationPendingScreen.tsx:16-33 | a render applies the message-change step |
| PendingScreen.ConfigurationPendingScreen.Tick | src/screens/ConfigurationPendingScreen.tsx:17-21 | a clock reading applies the timer step |
| PendingScreen.ConfigurationPendingScreen.PressRetry | src/screens/ConfigurationPendingScreen.tsx:45-49 | the button is shown iff the error is raised, and a press goes back |
| WiFiConfiguration.SplitAtNul | src/screens/WiFiConfigurationScreen.tsx:57 | a payload splits at its first NUL into a NUL-free head and the rest; there is no split iff there is no NUL |
| WiFiConfiguration.PayloadRoundTrip | src/screens/WiFiConfigurationScreen.tsx:57 | when the SSID has no NUL, splitting `SSID NUL password` at its first NUL recovers both fields |
| WiFiConfiguration.AmbiguousWithNulInSsid | src/screens/WiFiConfigurationScreen.tsx:57 | for every SSID `x NUL y` and password `pw`, the payload equals that of SSID `x` with password `y NUL pw`, and the receiver reads the latter pair when `x` has no NUL |
| WiFiConfiguration.WiFiConfigurationScreen.constructor | src/screens/WiFiConfigurationScreen.tsx:11-15 | the list, the SSID and the password start empty and both busy flags start false |
| WiFiConfiguration.WiFiConfigurationScreen.FetchAvailableWifi | src/screens/WiFiConfigurationScreen.tsx:22-36 | with no device nothing is read and nothing changes; a successful read replaces the list, a failed one leaves it; `isFetchingWifi` ends false |
| WiFiConfiguration.WiFiConfigurationScreen.SendWifiCredentials | src/screens/WiFiConfigurationScreen.tsx:38-66 | with no device, SSID or password nothing is written and nothing navigates; otherwise the monitor precedes every write of `SSID NUL password`; only a resolved write navigates to the pending screen; `isSendingCredentials` ends false |
| WiFiConfiguration.WiFiConfigurationScreen.TapNetwork | src/screens/WiFiConfigurationScreen.tsx:94 | tapping a row selects that row's network |
| WiFiConfiguration.WiFiConfigurationScreen.EnterPassword | src/screens/WiFiConfigurationScreen.tsx:110 | the password field's text becomes the password |

## Left out

- BLE library calls (`startDeviceScan`, `connectToDevice`, `discoverAllServicesAndCharacteristics`, `cancelDeviceConnection`, `monitorCharacteristicForService`, `services()`, `characteristics()`, `read()`, `writeWithResponse`) are foreign. They are inputs that say how each call settles.
- Base64 and UTF-8 conversion through `Buffer` is a foreign library. Characteristic values are taken already decoded, and written payloads are recorded before encoding.
- JavaScript's `trim` is modelled by the set of characters it removes (ECMAScript white space and line terminators), since only "is the trimmed text empty" is used.
- BleService.BluetoothService.ScanForDevices: the 5 000 ms scan timer is not modelled. The callbacks that arrive before it fires are given as a list, and the scan-error branch cuts that list.
- Real timers, polling and their interleaving with user actions are not modelled: `setInterval` every 3 000 ms, `setTimeout`, `Date.now`. One interval callback of the watcher is one call of `WatchTick` on an abstract clock, run to completion.
- BleContext.BleProvider.WatchTick: the `if (dev)` test after a resolved reconnection is not a separate branch. In a sequential run a resolved connection always leaves the manager holding a device.
- Whether a stale device reference can still be reconnected is platform behaviour. Each attempt's outcome is an input.
- React hook mechanics are not modelled: batched state updates, closures that capture stale state, effect dependency arrays. Setters take effect at once, and an effect runs when its dependency changes.
- PendingScreen.Step: the reaction effect also depends on the `navigation` object, which is taken to be stable. The unmount cleanup that clears the timer is not modelled.
- WiFiConfiguration.WiFiConfigurationScreen.constructor: the mount effect that fetches the list once is not part of construction. It is a later call of `FetchAvailableWifi`.
- `Alert.alert`, `console.log`, rendering, styles and button enablement are user-interface only and are left out.
- `scanDevices` in the provider only forwards to the manager's scan with a default duration, so it is covered by `ScanForDevices`.
- `HomeScreen.tsx` is not registered in the navigator, and `permissions.ts` is a platform permission wrapper; both are left out.
- `DeviceScanScreen.tsx`, `DeviceConnectedScreen.tsx`, `ConfigurationSuccessScreen.tsx`, `AppNavigator.tsx`, `App.tsx` and the theme files are navigation and presentation glue with no logic of their own to model.
