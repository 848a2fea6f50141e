# Vanity contract-address search (`Prefix`)

This project models the vanity contract-address searcher of OpenEthereum's
`ethkey` crate, `accounts/ethkey/src/prefix.rs`, in Dafny and proves its search
rule.

`Prefix` holds a byte prefix and an iteration budget. `Prefix::generate` runs at
most `iterations` passes. Each pass draws one random keypair and derives the
address of the contract that the keypair's account would create at nonce 0. That
derivation is Keccak-256 of the RLP list `[sender, nonce]`, cut to a 20-byte
address, as section 7 (Contract Creation) of the Ethereum Yellow Paper defines
it. If the derived address starts byte-for-byte with the prefix, the pass returns
the keypair. When the budget runs out, `generate` fails with a single error.
`Prefix::mk_contract_address` is the same derivation as a standalone function,
for any sender and nonce.

Files:

- `eth_types.dfy` (module `EthTypes`) holds the library value types: `Byte`,
  `Address` (20 bytes), `H256`, `U256`, `USize`, `KeyPair` and the single
  `Error`. It also holds `Primitives`, a bundle of three library functions: RLP
  list encoding, `keccak`, and `From<H256> for Address`. These functions are
  parameters, so every property below holds for every deterministic choice of
  them.
- `prefix.dfy` (module `VanityPrefix`) models `prefix.rs`:
  - `Prefix` is a class whose fields are `prefix` and `iterations`.
  - `Prefix.MkContractAddress` models `mk_contract_address`.
  - `Prefix.Generate` models `generate`. It has a counted `for` loop and an
    early return.
  - `FirstMatch` is the specification function that `Generate` is proved
    against.
  - The remaining members are lemmas about the search rule.

The randomness of `Random.generate()` is an oracle `random: nat -> KeyPair`:
draw `i` of a call is `random(i)`. `Generate` also returns `drawn`, the number of
draws the call made, so the budget is stated in its contract. `Generate` has no
`modifies` clause, so the verifier checks that it writes neither `prefix` nor
`iterations`. Every call therefore starts from the same full budget, even though
the Rust method takes `&mut self`.

`Prefix.MkContractAddress` only computes. Its hash, encoder and truncation are
abstract, so it carries no contract of its own. `Generate` builds the RLP stream
inline, as lines 36-41 do. Its contract states the result in terms of `MkContractAddress(kp.address, 0)`, which proves that the
two code paths derive the same address.

## Model

| member | source | states |
|---|---|---|
| `VanityPrefix.StartsWith` | accounts/ethkey/src/prefix.rs:42 | The slice test `starts_with` holds exactly when the prefix is no longer than the address and agrees with it byte by byte. The empty prefix always passes. A prefix longer than the address never passes. |
| `VanityPrefix.FirstMatch` | accounts/ethkey/src/prefix.rs:34-45 | The search over draws `[from, n)` returns an index in range whose draw passes the contract-address test, and every earlier draw fails. When it returns nothing, every draw in range fails. |
| `VanityPrefix.FirstMatchIff` | accounts/ethkey/src/prefix.rs:42-43 | First match wins, in both directions. The search returns `k` if and only if draw `k` is in the budget, passes, and all earlier draws fail. |
| `VanityPrefix.ZeroBudgetExhausts` | accounts/ethkey/src/prefix.rs:34-47 | With `iterations == 0`, no draw is tested and the search fails. |
| `VanityPrefix.EmptyPrefixTakesFirstDraw` | accounts/ethkey/src/prefix.rs:42-43 | An empty prefix with a budget of at least one returns the very first draw. |
| `VanityPrefix.LongPrefixNeverMatches` | accounts/ethkey/src/prefix.rs:41-42 | A prefix longer than 20 bytes matches no keypair's contract address. |
| `VanityPrefix.LongPrefixExhausts` | accounts/ethkey/src/prefix.rs:34-47 | With a prefix longer than 20 bytes, every budget is spent in full and the search fails. |
| `VanityPrefix.MatchDependsOnlyOnAddress` | accounts/ethkey/src/prefix.rs:35-42 | The test uses only the keypair's address as the sender, with nonce 0. Two keypairs with the same address both pass or both fail, whatever their keys. |
| `VanityPrefix.LargerBudget` | accounts/ethkey/src/prefix.rs:34-47 | A winner found within `n` draws is still the winner with any larger budget. After a failed run of `n` draws, a run of `m >= n` draws is decided by draws `n` to `m - 1`. |
| `VanityPrefix.Prefix.New` | accounts/ethkey/src/prefix.rs:29-31 | The constructor stores the prefix and the budget unchanged. It validates nothing. |
| `VanityPrefix.Prefix.MkContractAddress` | accounts/ethkey/src/prefix.rs:49-54 | For any sender and any nonce, the address is `addressFromHash(keccak(rlpList([sender, nonce])))`, with the sender appended first and the nonce second. The hash, the encoder and the truncation are abstract, so the function has no contract of its own. The `Generate` contract ties the test that the loop applies to each draw (lines 36-42) to `MkContractAddress(kp.address, 0)`. |
| `VanityPrefix.Prefix.Generate` | accounts/ethkey/src/prefix.rs:33-47 | At most `iterations` keypairs are drawn, one per pass. On `Ok(kp)`, `kp` is the last draw, and `MkContractAddress(kp.address, 0)` starts with the prefix, so the loop's inline derivation agrees with `mk_contract_address`. Every earlier draw failed the test. On `Err`, the single error is returned after exactly `iterations` draws, all of which failed. The result and the draw count are those of `FirstMatch` over the full configured budget. |
| `VanityPrefix.OwnAddressAssertionFails` | accounts/ethkey/src/prefix.rs:67 | The assertion of the test `prefix_generator` does not follow from `generate`. There is an encoder and a hash under which a keypair's own address is that hash of its public key, yet its contract address starts with `0xff` and its own address does not. |
| `VanityPrefix.PrefixGeneratorTest` | accounts/ethkey/src/prefix.rs:62-68 | The test `prefix_generator` with its intended assertion. When the search with prefix `[0xff]` and budget `usize::MAX` succeeds, the returned keypair's nonce-0 contract address starts with `0xff`. The search succeeds exactly when some draw within the budget passes the test. |

## Findings

| source | as written | input that shows it | evidently intended | confidence | as-written member | corrected member |
|---|---|---|---|---|---|---|
| accounts/ethkey/src/prefix.rs:67 | The test asserts that the returned keypair's own address starts with the prefix `[0xff]`. | Take an encoder that maps every RLP list to `[1]`, and a hash that maps `[1]` to all `0xff` bytes and anything else to all zero bytes. A keypair's address is the same hash of its 64-byte public key, so it is all zero bytes. The keypair's contract address is all `0xff`, so `generate` returns the first draw, but its own address starts with `0x00`. | Assert that the nonce-0 contract address of the returned keypair starts with the prefix, because that is what `generate` selects on (line 42). | high; not executed | `VanityPrefix.OwnAddressAssertionFails` | `VanityPrefix.PrefixGeneratorTest` |

## Left out

- Random keypair generation (`Random.generate()`, secp256k1, OS randomness) is not modelled as cryptography. The draws are an arbitrary oracle `nat -> KeyPair`, and a keypair's keys are opaque values.
- Keccak-256, the RLP encoding of `[sender, nonce]` (Appendix B of the Yellow Paper), and the truncation `From<H256> for Address` are foreign library code. They are arbitrary total functions in `EthTypes.Primitives`. Their outputs are not computed, and collision-freedom is not assumed.
- Probabilistic claims are not modelled. The test expects eventual success with `usize::max_value()` iterations, and the derivation is expected to be injective with overwhelming probability. Neither can be stated over arbitrary primitives. `PrefixGeneratorTest` therefore proves only what holds when the search succeeds.
- The free-form message of `Error::Custom("Could not find keypair")` becomes the single tag `CouldNotFindKeypair`.
- `usize` is taken to be 64 bits wide, and the loop counter cannot overflow within the budget.
