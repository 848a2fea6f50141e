/** The vanity contract-address searcher of `accounts/ethkey/src/prefix.rs`.

    `Prefix::generate` draws random keypairs one at a time, derives the
    address of the contract each keypair would deploy at nonce 0 (section 7
    of the Ethereum Yellow Paper: Keccak-256 of the RLP list
    `[sender, nonce]`, cut to an address) and returns the first keypair whose
    contract address starts with the configured prefix, or fails once
    `iterations` draws have been made.

    Randomness is an oracle `random: nat -> KeyPair` giving the i-th keypair
    that `Random.generate()` would return; hashing and encoding are the
    functions bundled in `EthTypes.Primitives`. */
module VanityPrefix {
  import opened EthTypes

  /** `<[u8]>::starts_with`: `p` is a literal leading run of `s`. The
      contract states the same test byte by byte, and its two edge cases. */
  function StartsWith(s: seq<Byte>, p: seq<Byte>): (b: bool)
    ensures b <==> |p| <= |s| && forall i :: 0 <= i < |p| ==> s[i] == p[i]
    ensures p == [] ==> b
    ensures |p| > |s| ==> !b
  {
    |p| <= |s| && s[..|p|] == p
  }

  /** The test `generate` applies to one keypair: the address of the
      contract it deploys at nonce 0 starts with `prefix`. */
  predicate ContractMatches(prims: Primitives, prefix: seq<Byte>, kp: KeyPair)
  {
    StartsWith(Prefix.MkContractAddress(prims, kp.address, 0), prefix)
  }

  /** Index of the first draw in `[from, n)` that passes the test, if any.
      This is the search `generate` performs with a budget of `n` draws. */
  function FirstMatch(prims: Primitives, prefix: seq<Byte>, random: nat -> KeyPair, from: nat, n: nat): (k: Option<nat>)
    decreases n - from
    ensures k.Some? ==> from <= k.value < n && ContractMatches(prims, prefix, random(k.value))
    ensures k.Some? ==> forall j :: from <= j < k.value ==> !ContractMatches(prims, prefix, random(j))
    ensures k.None? ==> forall j :: from <= j < n ==> !ContractMatches(prims, prefix, random(j))
  {
    if n <= from then None
    else if ContractMatches(prims, prefix, random(from)) then Some(from)
    else FirstMatch(prims, prefix, random, from + 1, n)
  }

  /** `FirstMatch` is determined by the test alone: it returns `k` exactly
      when draw `k` is in range, passes, and every earlier draw fails. */
  lemma FirstMatchIff(prims: Primitives, prefix: seq<Byte>, random: nat -> KeyPair, from: nat, n: nat, k: nat)
    ensures FirstMatch(prims, prefix, random, from, n) == Some(k) <==>
      (from <= k < n && ContractMatches(prims, prefix, random(k)) &&
       forall j :: from <= j < k ==> !ContractMatches(prims, prefix, random(j)))
  {
  }

  /** With a budget of zero no draw is tested and the search fails. */
  lemma ZeroBudgetExhausts(prims: Primitives, prefix: seq<Byte>, random: nat -> KeyPair)
    ensures FirstMatch(prims, prefix, random, 0, 0) == None
  {
  }

  /** An empty prefix is a prefix of every address, so with a budget of at
      least one the very first draw wins. */
  lemma EmptyPrefixTakesFirstDraw(prims: Primitives, random: nat -> KeyPair, n: nat)
    requires n >= 1
    ensures FirstMatch(prims, [], random, 0, n) == Some(0)
  {
  }

  /** A prefix longer than an address passes for no keypair at all ... */
  lemma LongPrefixNeverMatches(prims: Primitives, prefix: seq<Byte>, kp: KeyPair)
    requires |prefix| > ADDRESS_LEN
    ensures !ContractMatches(prims, prefix, kp)
  {
  }

  /** ... so every budget is spent in full and the search fails. */
  lemma LongPrefixExhausts(prims: Primitives, prefix: seq<Byte>, random: nat -> KeyPair, n: nat)
    requires |prefix| > ADDRESS_LEN
    ensures FirstMatch(prims, prefix, random, 0, n) == None
  {
  }

  /** Only the keypair's address takes part in the test: keypairs with the
      same address pass or fail together, whatever their keys. */
  lemma MatchDependsOnlyOnAddress(prims: Primitives, prefix: seq<Byte>, kp1: KeyPair, kp2: KeyPair)
    requires kp1.address == kp2.address
    ensures ContractMatches(prims, prefix, kp1) == ContractMatches(prims, prefix, kp2)
  {
  }

  /** A larger budget does not change a winner already found with a smaller
      one, and after a failed run of `n` draws, a run of `m >= n` draws over
      the same stream is decided by the draws from `n` on. */
  lemma LargerBudget(prims: Primitives, prefix: seq<Byte>, random: nat -> KeyPair, n: nat, m: nat)
    requires n <= m
    ensures FirstMatch(prims, prefix, random, 0, n).Some? ==>
      FirstMatch(prims, prefix, random, 0, m) == FirstMatch(prims, prefix, random, 0, n)
    ensures FirstMatch(prims, prefix, random, 0, n).None? ==>
      FirstMatch(prims, prefix, random, 0, m) == FirstMatch(prims, prefix, random, n, m)
  {
  }

  /** `Prefix`: the search parameters, fixed at construction. */
  class Prefix {
    var prefix: seq<Byte>
    var iterations: USize

    /** `Prefix::new`: stores both parameters, checks nothing. */
    constructor New(prefix: seq<Byte>, iterations: USize)
      ensures this.prefix == prefix && this.iterations == iterations
    {
      this.prefix := prefix;
      this.iterations := iterations;
    }

    /** `Prefix::mk_contract_address`: the address of the contract that
        `sender` creates with account nonce `nonce`. */
    static function MkContractAddress(prims: Primitives, sender: Address, nonce: U256): (addr: Address)
    {
      prims.addressFromHash(prims.keccak(prims.rlpList([AddressItem(sender), U256Item(nonce)])))
    }

    /** `Prefix::generate`. Draw `i` (counting from 0) is `random(i)`;
        `drawn` is how many draws the call made. The method has no
        `modifies` clause: it writes neither `prefix` nor `iterations`, so
        every call starts again from the full budget. */
    method Generate(prims: Primitives, random: nat -> KeyPair) returns (r: Result<KeyPair>, drawn: nat)
      ensures drawn <= iterations
      ensures r.Ok? ==> StartsWith(MkContractAddress(prims, r.value.address, 0), prefix)
      ensures r.Ok? ==> 1 <= drawn && r.value == random(drawn - 1)
      ensures r.Ok? ==> forall j :: 0 <= j < drawn - 1 ==> !ContractMatches(prims, prefix, random(j))
      ensures r.Err? ==> r == Err(CouldNotFindKeypair) && drawn == iterations
      ensures r.Err? ==> forall j :: 0 <= j < iterations ==> !ContractMatches(prims, prefix, random(j))
      ensures match FirstMatch(prims, prefix, random, 0, iterations)
        case Some(k) => r == Ok(random(k)) && drawn == k + 1
        case None => r.Err? && drawn == iterations
    {
      drawn := 0;
      for i := 0 to iterations
        invariant drawn == i
        invariant forall j :: 0 <= j < i ==> !ContractMatches(prims, prefix, random(j))
      {
        var keypair := random(drawn);
        drawn := drawn + 1;
        var nonce: U256 := 0;
        var sender := keypair.address;
        // `RlpStream::new_list(2)` followed by two `append`s.
        var stream: seq<RlpItem> := [];
        stream := stream + [AddressItem(sender)];
        stream := stream + [U256Item(nonce)];
        var contractAddress := prims.addressFromHash(prims.keccak(prims.rlpList(stream)));
        assert stream == [AddressItem(sender), U256Item(nonce)];
        if StartsWith(contractAddress, prefix) {
          FirstMatchIff(prims, prefix, random, 0, iterations, i);
          r := Ok(keypair);
          return;
        }
      }
      r := Err(CouldNotFindKeypair);
    }
  }

  /** The assertion of the unit test `prefix_generator`: the returned
      keypair's own address starts with the prefix. */
  predicate OwnAddressHasPrefix(kp: KeyPair, prefix: seq<Byte>)
  {
    StartsWith(kp.address, prefix)
  }

  /** The test's assertion does not follow from what `generate` returns.
      Take an encoder that maps every RLP list to `[1]` and a hash that maps
      `[1]` to all `0xff` bytes and everything else to all zero bytes. A
      keypair whose address is that hash of its public key (as
      `KeyPair::address()` derives it) then has an all-zero address, while
      its nonce-0 contract address is all `0xff`: the search with prefix
      `[0xff]` returns it on the first draw, and the test's assertion fails. */
  lemma OwnAddressAssertionFails()
    ensures var prims := Primitives(_ => [1],
                                    (x: seq<Byte>) => if x == [1] then seq(32, _ => 0xff) else seq(32, _ => 0),
                                    (h: H256) => h[12..]);
            var public: H512 := seq(64, _ => 2);
            var kp := KeyPair(seq(32, _ => 1), public, prims.addressFromHash(prims.keccak(public)));
            FirstMatch(prims, [0xff], _ => kp, 0, USIZE_MAX) == Some(0) &&
            !OwnAddressHasPrefix(kp, [0xff])
  {
    var prims := Primitives(_ => [1],
                            (x: seq<Byte>) => if x == [1] then seq(32, _ => 0xff) else seq(32, _ => 0),
                            (h: H256) => h[12..]);
    var public: H512 := seq(64, _ => 2);
    assert public != [1];
    var kp := KeyPair(seq(32, _ => 1), public, prims.addressFromHash(prims.keccak(public)));
    assert Prefix.MkContractAddress(prims, kp.address, 0)[0] == 0xff;
    assert ContractMatches(prims, [0xff], kp);
    assert kp.address[0] == 0;
  }

  /** The unit test `prefix_generator` with the assertion it evidently
      intends: the nonce-0 contract address of the returned keypair starts
      with `0xff`. `unwrap` is modelled by returning the result; a failure
      would be a panic of the test. */
  method PrefixGeneratorTest(prims: Primitives, random: nat -> KeyPair) returns (r: Result<KeyPair>)
    ensures r.Ok? ==> StartsWith(Prefix.MkContractAddress(prims, r.value.address, 0), [0xff])
    ensures r.Ok? <==> FirstMatch(prims, [0xff], random, 0, USIZE_MAX).Some?
  {
    var prefix: seq<Byte> := [0xff];
    var searcher := new Prefix.New(prefix, USIZE_MAX);
    var drawn;
    r, drawn := searcher.Generate(prims, random);
    if r.Ok? {
      assert ContractMatches(prims, prefix, r.value);
    }
  }
}
