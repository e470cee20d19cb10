# ledger-bitcoin protocol core in Dafny

This project models the byte-level protocol layer of the `ledger-bitcoin` crate
(`src/lib.rs`). The layer asks a Ledger hardware wallet for BIP 32 extended public
keys and for its firmware version. It covers:

- **Request encoder** (`Apdu`). A derivation path of at most ten children becomes
  a command in the ISO/IEC 7816-4 command layout (clause 5.1: CLA, INS, P1, P2,
  Lc, data). The class is `0xE0`, the instruction `0x40`, and both parameters are
  zero. The payload is one count byte followed by each child's raw `u32`, big-endian.
  A hardened child is its index plus 2^31, as the section "Child key derivation
  (CKD) functions" of BIP 32 defines. The loop that builds the payload is the
  method `Apdu.BuildRequestData`. It is proved equal to the specification
  `Apdu.PathPayload`, and `Apdu.ParsePayload` is an independent reader that
  inverts it.
- **Key-response decoder** (`KeyResponse`). The answer holds a length-prefixed
  public key, a length-prefixed base58 address (skipped) and exactly 32 bytes of
  chain code. `KeyResponse.DecodeAsWritten` follows the source line by line,
  including its two out-of-bounds reads. `KeyResponse.Decode` is the corrected
  decoder that the rest of the model uses (see Findings).
- **Firmware-version decoder** (`FirmwareVersion`). Seven bytes at fixed offsets
  become a record. Shorter answers are `InvalidLedgerResponse`, and bytes after
  the seventh are ignored.
- **Key assembly and the two requests** (`LedgerBitcoin`). `AssembleKey` fills
  the fields of the BIP 32 "Serialization format":
  - network: the session's network;
  - depth: the path length;
  - parent fingerprint: zero;
  - child number: the last child, or child 0 for the empty path;
  - public key: the parsed point, marked compressed;
  - chain code: the decoded chain code.

  `GetKey` is `Ledger::get_key` and `GetFirmwareVersion` is
  `Ledger::get_firmware_version`.
- **Error taxonomy** (`Errors.Error`): `DerivationPathTooLong`,
  `InvalidLedgerResponse`, `LedgerError(..)` and `Secp256k1Error(..)`. The two
  `From` conversions of the source are the last two constructors, applied where
  the source writes `?`.

Two boundaries are function parameters:

- The device exchange is a `Device`: a function from `ApduCommand` to an answer
  or a `TransportError`.
- secp256k1's `PublicKey::from_slice` is a `PointParser`.

A `Ledger` session is a datatype holding the device function and the network.
No operation of the source changes it.

The key decoder's own length checks show that a malformed answer is meant to be
`InvalidLedgerResponse`. Two of its reads are not covered by those checks, and
`KeyResponse.DecodeAsWritten` records what the code does there.

## Model

| member | source | states |
|---|---|---|
| `Bytes.U32ToBe` | src/lib.rs:65 | `to_be_bytes` gives four bytes whose big-endian value is the input |
| `Bytes.BeToU32Inverse` | src/lib.rs:65 | every four-byte group is the big-endian encoding of exactly one `u32` |
| `Bytes.U8Cast` | src/lib.rs:62 | `as u8` keeps a value below 256 unchanged and otherwise keeps it modulo 256 |
| `Bip32.Raw` | src/lib.rs:64 | a child's raw `u32` is below 2^31 exactly for normal children, and it equals the index modulo 2^31 |
| `Bip32.FromU32` | src/lib.rs:92 | `ChildNumber::from(n)` is the child whose raw value is `n` |
| `Bip32.RawInjective` | src/lib.rs:64 | two children with the same raw `u32` are the same child |
| `Bip32.FromRawInverse` | src/lib.rs:64 | converting a child to `u32` and back returns the child |
| `Apdu.FirmwareCommand` | src/lib.rs:43-49 | the firmware command is CLA 0xE0, INS 0xC4, P1 = P2 = 0, length 0, empty data |
| `Apdu.BuildRequestData` | src/lib.rs:61-66 | the `request_data` loop yields the path payload, `1 + 4n` bytes long |
| `Apdu.ChildGroupsLayout` | src/lib.rs:63-66 | after the count byte, group k is the big-endian raw value of child k, in path order |
| `Apdu.PayloadLayout` | src/lib.rs:61-66 | the payload has length `1 + 4n`, byte 0 is `n as u8`, and bytes `1+4k..5+4k` encode child k |
| `Apdu.PayloadRoundTrip` | src/lib.rs:61-66 | the independent payload reader recovers every path of length at most 10 |
| `Apdu.ParsedPayloadIsEncoding` | src/lib.rs:61-66 | every payload the reader accepts is the encoding of the path it reads |
| `Apdu.KeyCommand` | src/lib.rs:68-75 | the key command has CLA 0xE0, INS 0x40, P1 = P2 = 0; for a path of at most 10 children its length byte is the payload size and the path can be read back from the payload |
| `Apdu.KeyCommandHeader` | src/lib.rs:68-75 | the key command is CLA 0xE0, INS 0x40, P1 = P2 = 0; its length byte equals the payload size, which is at most 41, so no `as u8` truncates |
| `Apdu.ExamplePathPayload` | examples/fetch_addresses.rs:13-18 | m/49'/0'/0'/0 encodes to the 17 bytes `04 80000031 80000000 80000000 00000000` |
| `KeyResponse.Encode` | src/lib.rs:102-123 | the answer layout a decoder expects: `2 + |pk| + |address| + |chain code|` bytes |
| `KeyResponse.DecodeAsWritten` | src/lib.rs:102-124 | the source decoder as written: its `assert_eq!` never fires, and every chain code it returns is 32 bytes |
| `KeyResponse.AsWrittenPanics` | src/lib.rs:104-111 | the source decoder panics exactly on the empty answer and on an answer of length `1 + pk_len` |
| `KeyResponse.AsWrittenPanicExamples` | src/lib.rs:104-111 | `[]` and `02 AB CD` make the source decoder index one past the end; the corrected decoder rejects both |
| `KeyResponse.AsWrittenAgreesWithDecode` | src/lib.rs:102-124 | wherever the source decoder returns, it returns what the corrected decoder returns |
| `KeyResponse.Decode` | src/lib.rs:102-124 | decoding succeeds iff the answer is non-empty, `len > 1 + pk_len` and `len == 1 + pk_len + 1 + b58_len + 32`; every failure is `InvalidLedgerResponse`; the chain code is 32 bytes and the key `pk_len` bytes |
| `KeyResponse.RoundTrip` | src/lib.rs:102-123 | `[pk_len] ++ pk ++ [b58_len] ++ b58 ++ cc` with a 32-byte `cc` decodes to `pk` and `cc` |
| `KeyResponse.DecodedIsEncoding` | src/lib.rs:102-123 | every accepted answer is the encoding of the key and chain code returned, with the skipped address between them |
| `KeyResponse.ExampleAnswer` | src/lib.rs:102-123 | `02 AB CD 00` followed by 32 zero bytes decodes to key `AB CD` and a zero chain code |
| `FirmwareVersion.Encode` | src/lib.rs:137-142 | a version record occupies exactly seven bytes |
| `FirmwareVersion.Decode` | src/lib.rs:130-143 | decoding fails, with `InvalidLedgerResponse`, iff the answer is shorter than 7 bytes; otherwise the record's encoding is the first seven bytes |
| `FirmwareVersion.RoundTrip` | src/lib.rs:130-143 | a record followed by any trailing bytes decodes back to the record |
| `FirmwareVersion.TrailingBytesIgnored` | src/lib.rs:137-142 | bytes after index 7 do not change the result |
| `FirmwareVersion.ExampleVersion` | src/lib.rs:137-142 | `[f, a, v0, v1, v2, l0, l1]` decodes to features f, architecture a, firmware `[v0,v1,v2]`, loader `[l0,l1]` |
| `LedgerBitcoin.AssembleKey` | src/lib.rs:81-95 | the key fails with `Secp256k1Error` iff the point does not parse; otherwise it has the session network, depth `len as u8`, zero parent fingerprint, the last child (or child 0), the compressed point and the decoded chain code |
| `LedgerBitcoin.KeyOutcome` | src/lib.rs:55-95 | the outcome of `get_key` is `DerivationPathTooLong` iff the path is longer than 10; a key it returns came from a successful exchange with a well-formed answer, and has the session network, depth equal to the path length, zero parent fingerprint, the last child (or child 0) and the answer's chain code |
| `LedgerBitcoin.GetKey` | src/lib.rs:55-96 | `get_key` fails with `DerivationPathTooLong` iff the path is longer than 10; a key it returns has depth equal to the path length; it equals the step-by-step outcome `KeyOutcome` |
| `LedgerBitcoin.GetFirmwareVersion` | src/lib.rs:42-52 | a transport error is wrapped as `LedgerError`; an answer succeeds iff it has at least 7 bytes, and then the record encodes its first seven bytes |
| `LedgerBitcoin.TooLongPathNeverReachesDevice` | src/lib.rs:56-59 | for a path longer than 10 the outcome is `DerivationPathTooLong`, whatever the device would answer |
| `LedgerBitcoin.OnlyKeyCommandIsSent` | src/lib.rs:68-78 | the outcome depends on the device only through its answer to the key command |
| `LedgerBitcoin.KeyOutcomeErrors` | src/lib.rs:77-83 | `InvalidLedgerResponse` happens iff the device answered with a malformed answer; `LedgerError(e)` happens iff the exchange failed with `e` |
| `LedgerBitcoin.ScriptedDeviceYieldsKey` | src/lib.rs:77-95 | a device answering with a well-formed encoding of `pk` and `cc` yields the key at depth n, zero fingerprint, last child, parsed point and chain code `cc` |
| `LedgerBitcoin.KeyMatchesRequest` | src/lib.rs:88-95 | the returned key's depth is the payload's count byte, and its child number is the last payload group read back (0 for the empty path) |

## Left out

- `Ledger::new` (src/lib.rs:35-40) claims the first connected device over USB/HID. That is I/O, so a session here is built directly from a device function.
- `LedgerApp::exchange` is a function parameter. The `ledger` crate is not part of this model, so neither is how it frames packets. Whether it turns a status word other than 0x9000 into an error is also not modelled. This core reads only the answer's `data`.
- `secp256k1::PublicKey::from_slice` is a function parameter; elliptic-curve point validation is not modelled.
- `ChainCode::from` is the 32-byte `ChainCode` subset type. Its length check cannot fail, because `KeyResponse.Decode` guarantees 32 bytes.
- `bitcoin::Network` is reduced to an opaque tag, and the crate's key types to their fields.
- The unused `let f = data.to_vec();` (src/lib.rs:135) has no effect and is not modelled.
- The demo programs under `examples/` are not modelled: device discovery, child-key derivation, address rendering and printing.
- Decoding the same answer twice gives the same result because every decoder is a function. No separate lemma states this.
- Exclusive use of the device handle across threads is not modelled. Every operation here is a single synchronous call.
- LedgerBitcoin.GetKey: uses the corrected `KeyResponse.Decode`. On the two inputs listed under Findings it returns `InvalidLedgerResponse` where the source panics. `KeyResponse.AsWrittenAgreesWithDecode` shows that the two agree on every other input.
- LedgerBitcoin.KeyOutcome: is stated over the corrected `KeyResponse.Decode`, like `GetKey`. So are the lemmas about it. In particular, `KeyOutcomeErrors` says `InvalidLedgerResponse` happens iff the answer is malformed. For the empty answer and for an answer of length `1 + pk_len`, the source panics at src/lib.rs:104 and src/lib.rs:111 instead.

## Findings

| source | as written | input that shows it | evidently intended | confidence | as-written member | corrected member |
|---|---|---|---|---|---|---|
| src/lib.rs:104-111 | reads `bytes[0]` before any length check, and reads `bytes[1+pk_len]` after checking only `len >= 1 + pk_len` | `[]` (index 0 of 0), and `02 AB CD` (index 3 of 3) | a malformed answer is rejected with `InvalidLedgerResponse` and nothing is read past the end | high; not executed | `KeyResponse.AsWrittenPanics` | `KeyResponse.Decode` |
