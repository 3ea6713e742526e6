/**
 * Device ids of the BLE translator: "BLE-<address>-<postfix>", formatted into a buffer of
 * BLE_DEVICE_NAME_MAX_LENGTH bytes, that is, cut after 32 characters.
 */
module DeviceIds {

  const PREFIX := "BLE"
  const NAME_MAX_LENGTH := 33
  const ADDRESS_LENGTH := 17

  /** A Bluetooth address as BlueZ prints it, six colon-separated octets. */
  type Address = a: string | |a| == ADDRESS_LENGTH witness "00:00:00:00:00:00"

  /** What snprintf leaves in a buffer of `size` bytes: the text, cut to leave room for the terminator. */
  function Format(text: string, size: nat): string
    requires size > 0
  {
    if |text| < size then text else text[..size - 1]
  }

  function DeviceId(address: Address, postfix: string): string {
    Format(PREFIX + "-" + address + "-" + postfix, NAME_MAX_LENGTH)
  }

  /** The text of an id: the prefix, the address, and as much of the postfix as 32 characters have room for. */
  lemma DeviceIdText(a: Address, postfix: string)
    ensures var id, room := DeviceId(a, postfix), if |postfix| < 10 then |postfix| else 10;
            id == "BLE-" + a + "-" + postfix[..room]
  {
    var text := PREFIX + "-" + a + "-" + postfix;
    assert text == "BLE-" + a + "-" + postfix;
    if |postfix| >= 10 {
      assert text[..32] == "BLE-" + a + "-" + postfix[..10];
    } else {
      assert postfix[..|postfix|] == postfix;
    }
  }

  /** Truncation never reaches the address: equal ids mean equal addresses, whatever the postfix. */
  lemma DeviceIdInjective(a: Address, b: Address, postfix: string)
    ensures DeviceId(a, postfix) == DeviceId(b, postfix) <==> a == b
  {
    AddressInDeviceId(a, postfix);
    AddressInDeviceId(b, postfix);
  }

  lemma AddressInDeviceId(a: Address, postfix: string)
    ensures |DeviceId(a, postfix)| >= 21
    ensures DeviceId(a, postfix)[4..21] == a
  {
    var text := PREFIX + "-" + a + "-" + postfix;
    assert text == "BLE-" + a + ("-" + postfix);
    assert text[4..21] == a;
  }
}
