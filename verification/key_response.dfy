/**
 * Decoding of the device's answer to the "get wallet public key" command
 * (`TryFrom<&[u8]> for KeyRequestAnswer`). The answer is laid out as
 *
 *   pk_len : 1 byte | pub_key : pk_len bytes | b58_len : 1 byte | address : b58_len bytes | chain code : 32 bytes
 *
 * and the legacy base58 address in the middle is skipped.
 */
module KeyResponse {
  import opened Wrappers
  import opened Bytes
  import opened Errors

  /** `KeyRequestAnswer`: the public key and chain code, as slices of the answer. */
  datatype KeyRequestAnswer = KeyRequestAnswer(pubKey: seq<byte>, chainCode: seq<byte>)

  /** Why a Rust function aborted instead of returning. */
  datatype Panic = IndexOutOfBounds(index: nat, length: nat) | AssertionFailed

  /** What a call of a function that may panic does: return a `Result`, or panic. */
  datatype Outcome<+T> = Returned(result: Result<T, Error>) | Panicked(reason: Panic)

  /** The answer layout: the length byte exists, the base58 length byte exists, and the total matches. */
  predicate WellFormed(bytes: seq<byte>)
  {
    && |bytes| > 0
    && var pkLen := bytes[0] as int;
    && |bytes| > 1 + pkLen
    && |bytes| == 1 + pkLen + 1 + bytes[1 + pkLen] as int + 32
  }

  /** The answer a device sends for a key, an address and a chain code. */
  function Encode(pubKey: seq<byte>, address: seq<byte>, chainCode: seq<byte>): (bytes: seq<byte>)
    requires |pubKey| < 0x100 && |address| < 0x100
    ensures |bytes| == 2 + |pubKey| + |address| + |chainCode|
  {
    [|pubKey|] + pubKey + [|address|] + address + chainCode
  }

  /**
   * The decoder exactly as the source writes it. It indexes `bytes[0]` before
   * any length check and `bytes[1 + pk_len]` after checking only
   * `len >= 1 + pk_len`; both reads can be one past the end, and Rust panics.
   * Its `assert_eq!` on the chain-code length, on the other hand, never fires.
   */
  function DecodeAsWritten(bytes: seq<byte>): (r: Outcome<KeyRequestAnswer>)
    ensures r != Panicked(AssertionFailed)
    ensures r.Returned? && r.result.Success? ==> |r.result.value.chainCode| == 32
  {
    if |bytes| == 0 then Panicked(IndexOutOfBounds(0, 0))
    else
      var pkLen: nat := bytes[0];
      if |bytes| < 1 + pkLen then Returned(Failure(InvalidLedgerResponse))
      else
        var pubKey := bytes[1 .. 1 + pkLen];
        if 1 + pkLen >= |bytes| then Panicked(IndexOutOfBounds(1 + pkLen, |bytes|))
        else
          var b58Len: nat := bytes[1 + pkLen];
          if |bytes| != 1 + pkLen + 1 + b58Len + 32 then Returned(Failure(InvalidLedgerResponse))
          else
            var chainCode := bytes[1 + pkLen + 1 + b58Len ..];
            if |chainCode| != 32 then Panicked(AssertionFailed)
            else Returned(Success(KeyRequestAnswer(pubKey, chainCode)))
  }

  /**
   * The decoder with both bounds checks in place: every malformed answer,
   * including the empty one and one that stops right after the public key,
   * is `InvalidLedgerResponse`.
   */
  function Decode(bytes: seq<byte>): (r: Result<KeyRequestAnswer, Error>)
    ensures r.Success? <==> WellFormed(bytes)
    ensures r.Failure? ==> r.error == InvalidLedgerResponse
    ensures r.Success? ==> |r.value.chainCode| == 32 && |r.value.pubKey| == bytes[0]
  {
    if |bytes| == 0 then Failure(InvalidLedgerResponse)
    else
      var pkLen: nat := bytes[0];
      if |bytes| <= 1 + pkLen then Failure(InvalidLedgerResponse)
      else
        var b58Len: nat := bytes[1 + pkLen];
        if |bytes| != 1 + pkLen + 1 + b58Len + 32 then Failure(InvalidLedgerResponse)
        else Success(KeyRequestAnswer(bytes[1 .. 1 + pkLen], bytes[1 + pkLen + 1 + b58Len ..]))
  }

  /** Decoding an encoded answer gives back its public key and chain code. */
  lemma RoundTrip(pubKey: seq<byte>, address: seq<byte>, chainCode: seq<byte>)
    requires |pubKey| < 0x100 && |address| < 0x100 && |chainCode| == 32
    ensures Decode(Encode(pubKey, address, chainCode)) == Success(KeyRequestAnswer(pubKey, chainCode))
  {
    var bytes := Encode(pubKey, address, chainCode);
    var n := |pubKey|;
    assert bytes[0] == n;
    assert bytes[1 + n] == |address|;
    assert bytes[1 .. 1 + n] == pubKey;
    assert bytes[2 + n + |address| ..] == chainCode;
  }

  /**
   * Every answer the decoder accepts is an encoding: of the key and chain code
   * it returns, with the skipped address in between.
   */
  lemma DecodedIsEncoding(bytes: seq<byte>)
    requires Decode(bytes).Success?
    ensures var a := Decode(bytes).value;
      bytes == Encode(a.pubKey, bytes[2 + bytes[0] as int .. |bytes| - 32], a.chainCode)
  {
    var a := Decode(bytes).value;
    var n: nat := bytes[0];
    var address := bytes[2 + n .. |bytes| - 32];
    assert bytes == [bytes[0]] + bytes[1 .. 1 + n] + [bytes[1 + n]] + address + bytes[|bytes| - 32 ..];
  }

  /**
   * The source decoder panics exactly on the empty answer and on an answer
   * that ends right after the public key.
   */
  lemma AsWrittenPanics(bytes: seq<byte>)
    ensures DecodeAsWritten(bytes).Panicked? <==> |bytes| == 0 || |bytes| == 1 + bytes[0] as int
  {
  }

  /** Wherever the source decoder does not panic, it returns what `Decode` returns. */
  lemma AsWrittenAgreesWithDecode(bytes: seq<byte>)
    requires DecodeAsWritten(bytes).Returned?
    ensures DecodeAsWritten(bytes).result == Decode(bytes)
  {
  }

  /** The two inputs that make the source decoder read past the end. */
  lemma AsWrittenPanicExamples()
    ensures DecodeAsWritten([]) == Panicked(IndexOutOfBounds(0, 0))
    ensures DecodeAsWritten([0x02, 0xAB, 0xCD]) == Panicked(IndexOutOfBounds(3, 3))
    ensures Decode([]) == Failure(InvalidLedgerResponse)
    ensures Decode([0x02, 0xAB, 0xCD]) == Failure(InvalidLedgerResponse)
  {
  }

  /** `02 AB CD 00` followed by 32 zero bytes decodes to key `AB CD` and a zero chain code. */
  lemma ExampleAnswer()
    ensures Decode([0x02, 0xAB, 0xCD, 0x00] + seq(32, _ => 0))
         == Success(KeyRequestAnswer([0xAB, 0xCD], seq(32, _ => 0)))
  {
    RoundTrip([0xAB, 0xCD], [], seq(32, _ => 0));
    assert Encode([0xAB, 0xCD], [], seq(32, _ => 0)) == [0x02, 0xAB, 0xCD, 0x00] + seq(32, _ => 0);
  }
}
