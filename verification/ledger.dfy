/**
 * The session object of the crate (`Ledger`) and its two requests: fetch an
 * extended public key for a derivation path, and fetch the firmware version.
 * The USB/HID exchange and the secp256k1 point check are outside this model
 * and enter as function parameters.
 */
module LedgerBitcoin {
  import opened Wrappers
  import opened Bytes
  import opened Bip32
  import opened Errors
  import opened Apdu
  import KeyResponse
  import FirmwareVersion

  /** `LedgerApp::exchange`: one command in, the device's answer or a transport error out. */
  type Device = ApduCommand -> Result<ApduAnswer, TransportError>

  /** `secp256k1::PublicKey::from_slice`: a point, or the curve library's error. */
  type PointParser = seq<byte> -> Result<CurvePoint, CurveError>

  /** `Ledger`: the device handle and the network keys are tagged with; no request changes either. */
  datatype Ledger = Ledger(device: Device, network: Network)

  /**
   * Building the extended key from a decoded answer: the public key must
   * parse as a curve point (otherwise `Secp256k1Error`); depth is the path
   * length cast to a byte, the parent fingerprint is zero, the child number is
   * the last child of the path or child 0 for the empty path, and the chain
   * code is the decoded one.
   */
  function AssembleKey(network: Network, path: DerivationPath, answer: KeyResponse.KeyRequestAnswer,
                       parsePoint: PointParser): (r: Result<ExtendedPubKey, Error>)
    requires |answer.chainCode| == 32
    ensures r.Failure? <==> parsePoint(answer.pubKey).Failure?
    ensures r.Failure? ==> r.error == Secp256k1Error(parsePoint(answer.pubKey).error)
    ensures r.Success? ==>
      && r.value.network == network
      && r.value.depth == U8Cast(|path|)
      && r.value.parentFingerprint == ZeroFingerprint
      && r.value.childNumber == (if path == [] then Normal(0) else path[|path| - 1])
      && r.value.publicKey == PublicKey(true, parsePoint(answer.pubKey).value)
      && r.value.chainCode == answer.chainCode
  {
    match parsePoint(answer.pubKey)
    case Failure(e) => Failure(Secp256k1Error(e))
    case Success(point) =>
      var lastChild := if |path| == 0 then FromU32(0) else path[|path| - 1];
      Success(ExtendedPubKey(network, U8Cast(|path|), ZeroFingerprint, lastChild, PublicKey(true, point), answer.chainCode))
  }

  /**
   * What `get_key` returns, step by step: the length check, the exchange of
   * the key command, the decoding of its answer and the assembly of the key;
   * each `?` turns the failure of its step into the crate's `Error`.
   */
  function KeyOutcome(ledger: Ledger, path: DerivationPath, parsePoint: PointParser): (r: Result<ExtendedPubKey, Error>)
    ensures r == Failure(DerivationPathTooLong) <==> |path| > MaxPathLength
    ensures r.Success? ==>
      && ledger.device(KeyCommand(path)).Success?
      && var data := ledger.device(KeyCommand(path)).value.data;
      && KeyResponse.WellFormed(data)
      && r.value.network == ledger.network
      && r.value.depth == |path|
      && r.value.parentFingerprint == ZeroFingerprint
      && r.value.childNumber == (if path == [] then Normal(0) else path[|path| - 1])
      && r.value.chainCode == KeyResponse.Decode(data).value.chainCode
  {
    if |path| > MaxPathLength then Failure(DerivationPathTooLong)
    else
      match ledger.device(KeyCommand(path))
      case Failure(e) => Failure(LedgerError(e))
      case Success(raw) =>
        match KeyResponse.Decode(raw.data)
        case Failure(e) => Failure(e)
        case Success(answer) => AssembleKey(ledger.network, path, answer, parsePoint)
  }

  /** `Ledger::get_key`. */
  method GetKey(ledger: Ledger, path: DerivationPath, parsePoint: PointParser) returns (r: Result<ExtendedPubKey, Error>)
    ensures r == KeyOutcome(ledger, path, parsePoint)
    ensures r == Failure(DerivationPathTooLong) <==> |path| > MaxPathLength
    ensures r.Success? ==> r.value.depth == |path| && r.value.network == ledger.network
  {
    var pathLen := |path|;
    if pathLen > MaxPathLength {
      return Failure(DerivationPathTooLong);
    }
    var requestData := BuildRequestData(path);
    var command := ApduCommand(LedgerCla, InsGetWalletPublicKey, 0x00, 0x00, U8Cast(|requestData|), requestData);
    assert command == KeyCommand(path);
    var rawAnswer := ledger.device(command);
    if rawAnswer.Failure? {
      return Failure(LedgerError(rawAnswer.error));
    }
    var answer :- KeyResponse.Decode(rawAnswer.value.data);
    r := AssembleKey(ledger.network, path, answer, parsePoint);
  }

  /** `Ledger::get_firmware_version`: exchange the fixed version command and decode the answer. */
  function GetFirmwareVersion(ledger: Ledger): (r: Result<FirmwareVersion.LedgerFirmwareVersion, Error>)
    ensures var answer := ledger.device(FirmwareCommand());
      && (answer.Failure? ==> r == Failure(LedgerError(answer.error)))
      && (answer.Success? ==> (r.Success? <==> |answer.value.data| >= 7))
      && (r.Success? ==> FirmwareVersion.Encode(r.value) == answer.value.data[..7])
      && (r.Failure? && answer.Success? ==> r.error == InvalidLedgerResponse)
  {
    match ledger.device(FirmwareCommand())
    case Failure(e) => Failure(LedgerError(e))
    case Success(answer) => FirmwareVersion.Decode(answer.data)
  }

  /**
   * A path longer than ten children is refused before the device is asked:
   * the outcome is `DerivationPathTooLong` whatever the device would answer.
   */
  lemma TooLongPathNeverReachesDevice(d1: Device, d2: Device, network: Network, path: DerivationPath,
                                      parsePoint: PointParser)
    requires |path| > MaxPathLength
    ensures KeyOutcome(Ledger(d1, network), path, parsePoint) == Failure(DerivationPathTooLong)
    ensures KeyOutcome(Ledger(d2, network), path, parsePoint) == KeyOutcome(Ledger(d1, network), path, parsePoint)
  {
  }

  /** The only command `get_key` sends is `KeyCommand(path)`: devices that agree on it agree on the outcome. */
  lemma OnlyKeyCommandIsSent(d1: Device, d2: Device, network: Network, path: DerivationPath,
                             parsePoint: PointParser)
    requires d1(KeyCommand(path)) == d2(KeyCommand(path))
    ensures KeyOutcome(Ledger(d1, network), path, parsePoint) == KeyOutcome(Ledger(d2, network), path, parsePoint)
  {
  }

  /** The error a failed key request reports names the step that failed. */
  lemma KeyOutcomeErrors(ledger: Ledger, path: DerivationPath, parsePoint: PointParser)
    ensures var r := KeyOutcome(ledger, path, parsePoint);
      && (r == Failure(InvalidLedgerResponse) <==>
            |path| <= MaxPathLength && ledger.device(KeyCommand(path)).Success?
            && !KeyResponse.WellFormed(ledger.device(KeyCommand(path)).value.data))
      && (forall e :: r == Failure(LedgerError(e)) <==>
            |path| <= MaxPathLength && ledger.device(KeyCommand(path)) == Failure(e))
  {
  }

  /**
   * A device that answers the key command with a well-formed answer for key
   * bytes `pubKey` and chain code `chainCode` yields the extended key at depth
   * `|path|` with a zero parent fingerprint, the last child of the path, the
   * parsed point and that chain code.
   */
  lemma ScriptedDeviceYieldsKey(ledger: Ledger, path: DerivationPath, parsePoint: PointParser,
                                pubKey: seq<byte>, address: seq<byte>, chainCode: ChainCode, retcode: u16)
    requires |path| <= MaxPathLength
    requires |pubKey| < 0x100 && |address| < 0x100
    requires ledger.device(KeyCommand(path)) == Success(ApduAnswer(KeyResponse.Encode(pubKey, address, chainCode), retcode))
    requires parsePoint(pubKey).Success?
    ensures KeyOutcome(ledger, path, parsePoint) == Success(ExtendedPubKey(
      ledger.network, |path|, ZeroFingerprint, if path == [] then Normal(0) else path[|path| - 1],
      PublicKey(true, parsePoint(pubKey).value), chainCode))
  {
    KeyResponse.RoundTrip(pubKey, address, chainCode);
  }

  /**
   * The key that comes back describes the request that was sent: its depth is
   * the count byte of the payload and its child number is the last
   * four-byte group of the payload read back as a `u32` (0 for the empty path).
   */
  lemma KeyMatchesRequest(ledger: Ledger, path: DerivationPath, parsePoint: PointParser)
    requires KeyOutcome(ledger, path, parsePoint).Success?
    ensures var key := KeyOutcome(ledger, path, parsePoint).value;
      var data := KeyCommand(path).data;
      && key.depth == data[0]
      && Raw(key.childNumber) == (if path == [] then 0 else BeToU32(data[|data| - 4 ..]))
  {
    PayloadLayout(path);
    var data := KeyCommand(path).data;
    if path != [] {
      var k := |path| - 1;
      assert data[|data| - 4 ..] == data[1 + 4 * k .. 5 + 4 * k];
    }
  }
}
