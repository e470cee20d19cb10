/**
 * Decoding of the device's answer to the "get firmware version" command
 * (`TryFrom<&[u8]> for LedgerFirmwareVersion`): seven bytes at fixed offsets.
 */
module FirmwareVersion {
  import opened Wrappers
  import opened Bytes
  import opened Errors

  type Bytes3 = s: seq<byte> | |s| == 3 witness [0, 0, 0]
  type Bytes2 = s: seq<byte> | |s| == 2 witness [0, 0]

  /** `LedgerFirmwareVersion`. */
  datatype LedgerFirmwareVersion = LedgerFirmwareVersion(
    features: byte,
    architecture: byte,
    firmwareVersion: Bytes3,
    loaderVersion: Bytes2)

  /** The seven bytes a device sends for a version record. */
  function Encode(v: LedgerFirmwareVersion): (bytes: seq<byte>)
    ensures |bytes| == 7
  {
    [v.features, v.architecture] + v.firmwareVersion + v.loaderVersion
  }

  /**
   * Answers shorter than seven bytes are `InvalidLedgerResponse`; otherwise
   * bytes 0 and 1 are the features and architecture, bytes 2..5 the firmware
   * version and bytes 5..7 the loader version.
   */
  function Decode(data: seq<byte>): (r: Result<LedgerFirmwareVersion, Error>)
    ensures r.Failure? <==> |data| < 7
    ensures r.Failure? ==> r.error == InvalidLedgerResponse
    ensures r.Success? ==> Encode(r.value) == data[..7]
  {
    if |data| < 7 then Failure(InvalidLedgerResponse)
    else Success(LedgerFirmwareVersion(data[0], data[1], data[2..5], data[5..7]))
  }

  /** A version record survives encoding and decoding, whatever bytes follow it. */
  lemma RoundTrip(v: LedgerFirmwareVersion, trailing: seq<byte>)
    ensures Decode(Encode(v) + trailing) == Success(v)
  {
    var bytes := Encode(v) + trailing;
    assert bytes[2..5] == v.firmwareVersion;
    assert bytes[5..7] == v.loaderVersion;
  }

  /** Bytes after index 7 are ignored: only the first seven decide the result. */
  lemma TrailingBytesIgnored(data: seq<byte>, trailing: seq<byte>)
    requires |data| >= 7
    ensures Decode(data + trailing) == Decode(data)
  {
    var bytes := data + trailing;
    assert bytes[2..5] == data[2..5];
    assert bytes[5..7] == data[5..7];
  }

  /** `[f, a, v0, v1, v2, l0, l1]` decodes field by field. */
  lemma ExampleVersion(f: byte, a: byte, v0: byte, v1: byte, v2: byte, l0: byte, l1: byte)
    ensures Decode([f, a, v0, v1, v2, l0, l1])
         == Success(LedgerFirmwareVersion(f, a, [v0, v1, v2], [l0, l1]))
  {
    var v := LedgerFirmwareVersion(f, a, [v0, v1, v2], [l0, l1]);
    RoundTrip(v, []);
    assert Encode(v) + [] == [f, a, v0, v1, v2, l0, l1];
  }
}
