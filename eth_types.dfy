/** Value types and library capabilities that the vanity-prefix searcher uses
    from `ethereum_types`, `parity_crypto` and the RLP and Keccak crates.
    Only their shapes are modelled here: the cryptography and the encoding
    are supplied from outside as total functions (see `Primitives`). */
module EthTypes {

  /** An unsigned 8-bit value (`u8`). */
  newtype Byte = b: int | 0 <= b < 0x100

  /** Length in bytes of an account or contract address. */
  const ADDRESS_LEN: nat := 20

  /** `ethereum_types::Address`: 20 bytes. */
  type Address = s: seq<Byte> | |s| == ADDRESS_LEN witness seq(20, _ => 0)

  /** `ethereum_types::H256`: 32 bytes (a Keccak-256 digest, a secret key). */
  type H256 = s: seq<Byte> | |s| == 32 witness seq(32, _ => 0)

  /** `ethereum_types::H512`: 64 bytes (an uncompressed public key without its tag). */
  type H512 = s: seq<Byte> | |s| == 64 witness seq(64, _ => 0)

  /** `ethereum_types::U256`: an unsigned 256-bit integer. */
  type U256 = n: nat | n < 0x1_0000000000000000000000000000000000000000000000000000000000000000

  /** `usize` on a 64-bit target. */
  type USize = n: nat | n < 0x1_0000_0000_0000_0000

  /** `usize::max_value()` on a 64-bit target. */
  const USIZE_MAX: USize := 0xFFFF_FFFF_FFFF_FFFF

  /** `parity_crypto::publickey::KeyPair`: the keys are opaque; `address` is
      what `KeyPair::address()` returns for them. */
  datatype KeyPair = KeyPair(secret: H256, public: H512, address: Address)

  /** The one failure of the search: the budget ran out without a match. */
  datatype Error = CouldNotFindKeypair

  datatype Result<T> = Ok(value: T) | Err(error: Error)

  datatype Option<T> = None | Some(value: T)

  /** The two kinds of item the searcher appends to an `RlpStream`. */
  datatype RlpItem = AddressItem(address: Address) | U256Item(value: U256)

  /** The library functions the derivation of a contract address calls:
      - `rlpList`: the raw bytes of an RLP list stream holding the given
        items (`RlpStream::new_list`, `append` for each item, `as_raw`);
      - `keccak`: `keccak_hash::keccak`;
      - `addressFromHash`: the conversion `From<H256> for Address`.
      They are deterministic and total; nothing else is assumed of them. */
  datatype Primitives = Primitives(
    rlpList: seq<RlpItem> -> seq<Byte>,
    keccak: seq<Byte> -> H256,
    addressFromHash: H256 -> Address)
}
