/**
 * The command side of the protocol: the ISO/IEC 7816-4 command layout
 * (clause 5.1: CLA, INS, P1, P2, Lc, data) and the request payload that
 * `Ledger::get_key` builds from a derivation path.
 */
module Apdu {
  import opened Wrappers
  import opened Bytes
  import opened Bip32
  import opened Errors

  /** `ledger::ApduCommand`. */
  datatype ApduCommand = ApduCommand(cla: byte, ins: byte, p1: byte, p2: byte, length: byte, data: seq<byte>)

  /** `ledger::ApduAnswer`: the response data and the status word that follows it. */
  datatype ApduAnswer = ApduAnswer(data: seq<byte>, retcode: u16)

  const LedgerCla: byte := 0xE0
  const InsGetWalletPublicKey: byte := 0x40
  const InsGetFirmwareVersion: byte := 0xC4

  /** The device derives keys at depth 10 at most. */
  const MaxPathLength := 10

  /** The child numbers of `path`, each as its raw `u32` in big-endian order, concatenated. */
  function ChildGroups(path: DerivationPath): seq<byte>
  {
    if path == [] then [] else ChildGroups(path[..|path| - 1]) + U32ToBe(Raw(path[|path| - 1]))
  }

  /** The request payload: a length byte (`path_len as u8`), then the child groups. */
  function PathPayload(path: DerivationPath): seq<byte>
  {
    [U8Cast(|path|)] + ChildGroups(path)
  }

  /**
   * The command `get_key` sends for a path it has accepted. For every path of
   * at most ten children the length byte is the true payload size and the
   * device can read the path back from the payload.
   */
  function KeyCommand(path: DerivationPath): (c: ApduCommand)
    ensures c.cla == LedgerCla && c.ins == InsGetWalletPublicKey && c.p1 == 0 && c.p2 == 0
    ensures |path| <= MaxPathLength ==> c.length == |c.data| && ParsePayload(c.data) == Some(path)
  {
    var data := PathPayload(path);
    var command := ApduCommand(LedgerCla, InsGetWalletPublicKey, 0x00, 0x00, U8Cast(|data|), data);
    if |path| <= MaxPathLength then
      PayloadLayout(path);
      PayloadRoundTrip(path);
      command
    else
      command
  }

  /** The fixed command `get_firmware_version` sends. */
  function FirmwareCommand(): (c: ApduCommand)
    ensures c.cla == LedgerCla && c.ins == InsGetFirmwareVersion && c.p1 == 0 && c.p2 == 0
    ensures c.length == |c.data| == 0
  {
    ApduCommand(LedgerCla, InsGetFirmwareVersion, 0, 0, 0, [])
  }

  /**
   * The `request_data` loop of `get_key`: push the length byte, then append the
   * big-endian bytes of each child number in path order.
   */
  method BuildRequestData(path: DerivationPath) returns (data: seq<byte>)
    ensures data == PathPayload(path)
    ensures |data| == 1 + 4 * |path|
  {
    data := [U8Cast(|path|)];
    var i := 0;
    while i < |path|
      invariant 0 <= i <= |path|
      invariant data == [U8Cast(|path|)] + ChildGroups(path[..i])
    {
      var raw := Raw(path[i]);
      assert path[..i + 1][..i] == path[..i];
      data := data + U32ToBe(raw);
      i := i + 1;
    }
    assert path[..|path|] == path;
    PayloadLayout(path);
  }

  /** Group `k` of the child bytes is the big-endian raw value of child `k`. */
  lemma {:induction false} ChildGroupsLayout(path: DerivationPath)
    ensures |ChildGroups(path)| == 4 * |path|
    ensures forall k :: 0 <= k < |path| ==> ChildGroups(path)[4 * k .. 4 * k + 4] == U32ToBe(Raw(path[k]))
  {
    if path != [] {
      var init := path[..|path| - 1];
      ChildGroupsLayout(init);
      forall k | 0 <= k < |path|
        ensures ChildGroups(path)[4 * k .. 4 * k + 4] == U32ToBe(Raw(path[k]))
      {
        if k < |init| {
          assert ChildGroups(path)[4 * k .. 4 * k + 4] == ChildGroups(init)[4 * k .. 4 * k + 4];
          assert init[k] == path[k];
        }
      }
    }
  }

  /**
   * The payload of a path of length n holds `1 + 4 * n` bytes: byte 0 is n (cast to
   * a byte) and bytes `1 + 4k .. 5 + 4k` are the big-endian raw value of child k.
   */
  lemma PayloadLayout(path: DerivationPath)
    ensures |PathPayload(path)| == 1 + 4 * |path|
    ensures PathPayload(path)[0] == U8Cast(|path|)
    ensures forall k :: 0 <= k < |path| ==>
      PathPayload(path)[1 + 4 * k .. 5 + 4 * k] == U32ToBe(Raw(path[k]))
  {
    ChildGroupsLayout(path);
    var p := PathPayload(path);
    forall k | 0 <= k < |path|
      ensures p[1 + 4 * k .. 5 + 4 * k] == U32ToBe(Raw(path[k]))
    {
      assert p[1 + 4 * k .. 5 + 4 * k] == ChildGroups(path)[4 * k .. 4 * k + 4];
    }
  }

  /**
   * A reference reading of a payload, independent of the encoder: a count byte n
   * and exactly n big-endian four-byte child numbers.
   */
  function ParsePayload(data: seq<byte>): Option<DerivationPath>
  {
    if |data| == 0 then None
    else
      var n: nat := data[0];
      if |data| != 1 + 4 * n then None
      else Some(seq(n, k requires 0 <= k < n => FromU32(BeToU32(data[1 + 4 * k .. 5 + 4 * k]))))
  }

  /** Every path the device accepts is recovered from its payload. */
  lemma PayloadRoundTrip(path: DerivationPath)
    requires |path| <= MaxPathLength
    ensures ParsePayload(PathPayload(path)) == Some(path)
  {
    PayloadLayout(path);
    var p := PathPayload(path);
    var parsed := ParsePayload(p).value;
    forall k | 0 <= k < |path|
      ensures parsed[k] == path[k]
    {
      FromRawInverse(path[k]);
    }
    assert parsed == path;
  }

  /** Conversely, every payload the reference reading accepts is the encoding of what it reads. */
  lemma ParsedPayloadIsEncoding(data: seq<byte>)
    requires ParsePayload(data).Some?
    ensures PathPayload(ParsePayload(data).value) == data
  {
    var path := ParsePayload(data).value;
    PayloadLayout(path);
    var p := PathPayload(path);
    forall i | 0 <= i < |data|
      ensures p[i] == data[i]
    {
      if i > 0 {
        var k := (i - 1) / 4;
        assert 4 * k <= i - 1 < 4 * k + 4;
        assert k < |path|;
        var group := data[1 + 4 * k .. 5 + 4 * k];
        BeToU32Inverse(group);
        assert path[k] == FromU32(BeToU32(group));
        assert p[1 + 4 * k .. 5 + 4 * k] == U32ToBe(Raw(path[k])) == group;
        assert p[i] == p[1 + 4 * k .. 5 + 4 * k][i - 1 - 4 * k];
      }
    }
  }

  /**
   * The command for an accepted path: class 0xE0, instruction 0x40, both
   * parameters zero, and a length byte equal to the payload size, at most 41,
   * so the `as u8` casts of the source never truncate.
   */
  lemma KeyCommandHeader(path: DerivationPath)
    requires |path| <= MaxPathLength
    ensures KeyCommand(path).cla == 0xE0 && KeyCommand(path).ins == 0x40
    ensures KeyCommand(path).p1 == 0 && KeyCommand(path).p2 == 0
    ensures KeyCommand(path).length == |KeyCommand(path).data| == 1 + 4 * |path| <= 41
    ensures KeyCommand(path).data[0] == |path|
  {
    PayloadLayout(path);
  }

  /** The receive path m/49'/0'/0'/0 encodes to `04 80000031 80000000 80000000 00000000`. */
  lemma ExamplePathPayload()
    ensures PathPayload([Hardened(49), Hardened(0), Hardened(0), Normal(0)])
         == [0x04, 0x80, 0x00, 0x00, 0x31, 0x80, 0x00, 0x00, 0x00, 0x80, 0x00, 0x00, 0x00, 0x00, 0x00, 0x00, 0x00]
  {
    var path := [Hardened(49), Hardened(0), Hardened(0), Normal(0)];
    assert U32ToBe(Raw(Hardened(49))) == [0x80, 0x00, 0x00, 0x31];
    assert U32ToBe(Raw(Hardened(0))) == [0x80, 0x00, 0x00, 0x00];
    assert U32ToBe(Raw(Normal(0))) == [0x00, 0x00, 0x00, 0x00];
    assert path[..1] == [Hardened(49)] && path[..1][..0] == [];
    assert ChildGroups(path[..1]) == [0x80, 0x00, 0x00, 0x31];
    assert path[..2][..1] == path[..1];
    assert ChildGroups(path[..2]) == [0x80, 0x00, 0x00, 0x31, 0x80, 0x00, 0x00, 0x00];
    assert path[..3][..2] == path[..2];
    assert path[..4] == path;
  }
}
