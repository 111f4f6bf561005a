/** The screen that lists the networks the device sees and sends it the chosen credentials. */
module WiFiConfiguration {
  import opened Common
  import opened BleService
  import opened BleContext

  const SERVICE_UUID: string := "5e5f229a-87c3-43f8-96f7-ec285be1a742"
  /** The characteristic read for the comma-separated network list. */
  const WIFI_CHAR_UUID: string := "6fe6d32a-2d28-4db8-a239-9ce3ca6bbf50"
  /** The characteristic written with the credentials and monitored for the verdict. */
  const CREDENTIALS_CHAR_UUID: string := "6f544163-4bfd-40ce-bb44-0599b39ad2e9"

  /** The credentials as sent: the SSID, a NUL character, the password. */
  function CredentialsPayload(ssid: string, password: string): string {
    ssid + ['\0'] + password
  }

  /** The receiver's reading of a payload: the text before the first NUL and the text after it;
      nothing when there is no NUL. */
  function SplitAtNul(payload: string): (fields: Option<(string, string)>)
    ensures fields.None? <==> '\0' !in payload
    ensures fields.Some? ==> '\0' !in fields.value.0 && payload == fields.value.0 + ['\0'] + fields.value.1
  {
    if payload == [] then None
    else if payload[0] == '\0' then Some(([], payload[1..]))
    else match SplitAtNul(payload[1..])
      case None => None
      case Some(f) => Some(([payload[0]] + f.0, f.1))
  }

  /** When the SSID has no NUL, splitting the payload at its first NUL gives back the SSID and
      the password (which may itself contain NULs). */
  lemma {:induction false} PayloadRoundTrip(ssid: string, password: string)
    requires '\0' !in ssid
    ensures SplitAtNul(CredentialsPayload(ssid, password)) == Some((ssid, password))
  {
    if ssid != [] {
      PayloadRoundTrip(ssid[1..], password);
      assert CredentialsPayload(ssid, password)[1..] == CredentialsPayload(ssid[1..], password);
      assert [ssid[0]] + ssid[1..] == ssid;
    }
  }

  /** An SSID that contains a NUL makes the payload ambiguous: the SSID `x NUL y` with password
      `pw` gives the same payload as the SSID `x` with password `y NUL pw`, and when `x` has no
      NUL the receiver reads the latter pair. */
  lemma AmbiguousWithNulInSsid(x: string, y: string, pw: string)
    ensures CredentialsPayload(x + ['\0'] + y, pw) == CredentialsPayload(x, y + ['\0'] + pw)
    ensures x + ['\0'] + y != x
    ensures '\0' !in x ==> SplitAtNul(CredentialsPayload(x + ['\0'] + y, pw)) == Some((x, y + ['\0'] + pw))
  {
    assert |x + ['\0'] + y| > |x|;
    assert (x + ['\0'] + y) + ['\0'] + pw == x + ['\0'] + (y + ['\0'] + pw);
    if '\0' !in x {
      PayloadRoundTrip(x, y + ['\0'] + pw);
    }
  }

  class WiFiConfigurationScreen {
    /** The context the screen reads its device and operations from. */
    const ble: BleProvider
    var wifiList: seq<string>
    var selectedSSID: string
    var password: string
    var isFetchingWifi: bool
    var isSendingCredentials: bool
    /** The navigation calls made so far. */
    var navigation: seq<NavAction>

    constructor (ble: BleProvider)
      ensures this.ble == ble
      ensures wifiList == [] && selectedSSID == "" && password == ""
      ensures !isFetchingWifi && !isSendingCredentials && navigation == []
    {
      this.ble := ble;
      wifiList := [];
      selectedSSID := "";
      password := "";
      isFetchingWifi := false;
      isSendingCredentials := false;
      navigation := [];
    }

    /** `fetchAvailableWifi`: nothing without a connected device; otherwise the list is
        replaced by what the read returns, a failed read leaves it, and the busy flag ends
        false. */
    method FetchAvailableWifi(gatt: Answer<seq<Service>>)
      modifies this, ble.service`ops
      ensures old(ble.connectedDeviceState).None? ==> unchanged(this) && ble.service.ops == old(ble.service.ops)
      ensures old(ble.connectedDeviceState).Some? ==>
        var r := ReadResult(ble.service.connectedDevice.Some?, gatt, SERVICE_UUID, WIFI_CHAR_UUID);
        && wifiList == (if r.Ok? then r.value else old(wifiList))
        && !isFetchingWifi
        && ble.service.ops == old(ble.service.ops) +
             (if ReadIssued(ble.service.connectedDevice.Some?, gatt, SERVICE_UUID, WIFI_CHAR_UUID)
              then [Read(SERVICE_UUID, WIFI_CHAR_UUID)] else [])
      ensures selectedSSID == old(selectedSSID) && password == old(password)
      ensures isSendingCredentials == old(isSendingCredentials) && navigation == old(navigation)
    {
      if ble.connectedDeviceState.None? {
        return;
      }
      isFetchingWifi := true;
      var networks := ble.ReadValue(SERVICE_UUID, WIFI_CHAR_UUID, gatt);
      if networks.Ok? {
        wifiList := networks.value;
      }
      isFetchingWifi := false;
    }

    /** `sendWifiCredentials`: refused without a device, an SSID or a password; otherwise
        notifications are enabled, then the payload is written, and only a write that resolves
        navigates to the pending screen; the busy flag ends false. */
    method SendWifiCredentials(gatt: Answer<seq<Service>>)
      modifies this, ble.service
      ensures old(ble.connectedDeviceState).None? || old(selectedSSID) == "" || old(password) == "" ==>
        unchanged(this) && unchanged(ble.service)
      ensures old(ble.connectedDeviceState).Some? && old(selectedSSID) != "" && old(password) != "" ==>
        var held := old(ble.service.connectedDevice).Some?;
        var run := WriteResult(held, gatt, SERVICE_UUID, CREDENTIALS_CHAR_UUID);
        && ble.service.ops == old(ble.service.ops)
             + (if held then [Monitor(SERVICE_UUID, CREDENTIALS_CHAR_UUID)] else [])
             + Repeat(Write(SERVICE_UUID, CREDENTIALS_CHAR_UUID, CredentialsPayload(old(selectedSSID), old(password))), run.issued)
        && navigation == old(navigation) + (if run.outcome.Resolved? then [Navigate(ConfigurationPending)] else [])
        && ble.service.notificationCallback == (if held then Some(ble.listener) else old(ble.service.notificationCallback))
        && !isSendingCredentials
      ensures wifiList == old(wifiList) && selectedSSID == old(selectedSSID) && password == old(password)
      ensures isFetchingWifi == old(isFetchingWifi)
      ensures ble.service.connectedDevice == old(ble.service.connectedDevice)
    {
      if ble.connectedDeviceState.None? {
        return;
      }
      if selectedSSID == "" || password == "" {
        return;
      }
      isSendingCredentials := true;
      ble.EnableNotifications(SERVICE_UUID, CREDENTIALS_CHAR_UUID);
      var written := ble.WriteValue(SERVICE_UUID, CREDENTIALS_CHAR_UUID, CredentialsPayload(selectedSSID, password), gatt);
      if written.Resolved? {
        navigation := navigation + [Navigate(ConfigurationPending)];
      }
      isSendingCredentials := false;
    }

    /** A tap on row `k` of the list selects that network. */
    method TapNetwork(k: nat)
      requires k < |wifiList|
      modifies this`selectedSSID
      ensures selectedSSID == wifiList[k]
    {
      selectedSSID := wifiList[k];
    }

    /** The password field's change handler. */
    method EnterPassword(text: string)
      modifies this`password
      ensures password == text
    {
      password := text;
    }
  }
}
