/**
 * The USB vendor/product id match that picks the pre-authorised Web Serial port
 * to open (renderer.js `tryWebSerialAutoConnect`).
 */
module UsbMatch {
  import opened Values
  import opened Text

  /** What `port.getInfo()` reports; a port without `getInfo` reports neither id. */
  datatype PortInfo = PortInfo(usbVendorId: Option<nat>, usbProductId: Option<nat>)

  const TargetVendorId: nat := 0x12BF
  const TargetProductId: nat := 0x010C

  /** `info.usbVendorId || 0` */
  function IdOrZero(id: Option<nat>): nat {
    if id.Some? then id.value else 0
  }

  /** `(id || 0).toString(16).toUpperCase().padStart(4, '0')` */
  function IdText(id: Option<nat>): string {
    PadStart(NatToString(IdOrZero(id), 16), 4, '0')
  }

  /** The textual comparison the auto-connect loop makes. */
  predicate IsTargetDevice(info: PortInfo) {
    IdText(info.usbVendorId) == "12BF" && IdText(info.usbProductId) == "010C"
  }

  lemma VendorText()
    ensures IdText(Some(TargetVendorId)) == "12BF" && StringValue("12BF", 16) == TargetVendorId
  {
    assert NatToString(0x12, 16) == "12";
    assert NatToString(0x12B, 16) == "12B";
    assert NatToString(0x12BF, 16) == "12BF";
    assert IdOrZero(Some(TargetVendorId)) == 0x12BF;
    assert "12BF"[..3] == "12B" && "12B"[..2] == "12" && "12"[..1] == "1" && "1"[..0] == "";
  }

  lemma ProductText()
    ensures IdText(Some(TargetProductId)) == "010C" && StringValue("010C", 16) == TargetProductId
  {
    assert NatToString(0x10, 16) == "10";
    assert NatToString(0x10C, 16) == "10C";
    assert IdOrZero(Some(TargetProductId)) == 0x10C;
    assert "010C"[..3] == "010" && "010"[..2] == "01" && "01"[..1] == "0" && "0"[..0] == "";
  }

  /** The id text depends only on the numeric id, a missing id counting as 0; reading it back gives that id. */
  lemma IdTextValue(id: Option<nat>)
    ensures IdText(id) == IdText(Some(IdOrZero(id)))
    ensures StringValue(IdText(id), 16) == IdOrZero(id)
  {
    PaddedValue(IdOrZero(id), 4, 16);
  }

  /** Comparing the padded hex texts is the same as comparing the numeric ids, a missing id counting as 0. */
  lemma IsTargetDeviceIff(info: PortInfo)
    ensures IsTargetDevice(info) <==>
      IdOrZero(info.usbVendorId) == TargetVendorId && IdOrZero(info.usbProductId) == TargetProductId
  {
    var v, p := info.usbVendorId, info.usbProductId;
    VendorText();
    ProductText();
    IdTextValue(v);
    IdTextValue(p);
    if IsTargetDevice(info) {
      assert StringValue(IdText(v), 16) == StringValue("12BF", 16);
      assert StringValue(IdText(p), 16) == StringValue("010C", 16);
    }
  }

  lemma NoMatchExtends(ports: seq<PortInfo>, i: nat)
    requires i < |ports| && !IsTargetDevice(ports[i])
    requires forall j :: 0 <= j < i ==> !IsTargetDevice(ports[j])
    ensures forall j :: 0 <= j < i + 1 ==> !IsTargetDevice(ports[j])
  {
  }

  /**
   * The auto-connect search over the previously granted ports: the index of the first
   * port whose ids read "12BF" and "010C", or None when no port matches.
   */
  method FindAutoConnectPort(ports: seq<PortInfo>) returns (k: Option<nat>)
    ensures k.Some? ==> k.value < |ports| && IsTargetDevice(ports[k.value])
    ensures k.Some? ==> forall j :: 0 <= j < k.value ==> !IsTargetDevice(ports[j])
    ensures k.None? ==> forall j :: 0 <= j < |ports| ==> !IsTargetDevice(ports[j])
  {
    var i := 0;
    while i < |ports|
      invariant 0 <= i <= |ports|
      invariant forall j :: 0 <= j < i ==> !IsTargetDevice(ports[j])
    {
      if IsTargetDevice(ports[i]) {
        return Some(i);
      }
      NoMatchExtends(ports, i);
      i := i + 1;
    }
    return None;
  }
}
