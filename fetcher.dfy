/**
 The code fetcher: asks one chain endpoint for the code deployed at an
 address and reduces it to a hash, or to "absent" (`None`). Empty code and
 any exception on the way (checksum normalisation, the read itself) both give
 "absent".
 */
module CodeFetcher {
  import opened Wrappers
  import opened Effects

  newtype byte = b: int | 0 <= b < 256

  /** What `get_code` does: hand back the deployed bytes, or raise. */
  datatype Reply = Code(bytes: seq<byte>) | Raised

  /**
   A chain endpoint as seen by one run: the answer of its connectivity probe
   and its answer to a code read for a given (address, block).
   */
  datatype Endpoint = Endpoint(connected: bool, getCode: (string, string) -> Reply)

  /**
   The library's pure helpers the program relies on: the address syntax check,
   the checksum normalisation (`None` when it raises) and the keccak digest
   rendered as hex text.
   */
  datatype Web3 = Web3(
    isAddress: string -> bool,
    toChecksumAddress: string -> Option<string>,
    keccakHex: seq<byte> -> string)

  /** The result of one fetch together with what it did on the way. */
  datatype Fetch = Fetch(hash: Option<string>, calls: seq<Call>, output: seq<Line>)

  /** The bytes a fetch gets to see, or `None` when something raised before them. */
  function Observed(web3: Web3, endpoint: Endpoint, address: string, block: string): (r: Option<seq<byte>>)
    // bytes are seen only when normalisation succeeded and the read of the normalised address returned them
    ensures r.Some? ==> web3.toChecksumAddress(address).Some?
                        && endpoint.getCode(web3.toChecksumAddress(address).value, block) == Code(r.value)
    ensures r.None? <==> web3.toChecksumAddress(address).None?
                         || endpoint.getCode(web3.toChecksumAddress(address).value, block) == Raised
  {
    match web3.toChecksumAddress(address)
    case None => None
    case Some(a) =>
      match endpoint.getCode(a, block)
      case Raised => None
      case Code(bytes) => Some(bytes)
  }

  /** `get_code_hash`: the hash of the code at `address` on `block`, or absent. */
  function GetCodeHash(web3: Web3, chain: Chain, endpoint: Endpoint, address: string, block: string): (f: Fetch)
    // absent exactly when nothing came back or the code is empty
    ensures f.hash.None? <==> Observed(web3, endpoint, address, block) in {None, Some([])}
    // present: the digest of exactly the bytes that came back
    ensures f.hash.Some? ==> f.hash.value == web3.keccakHex(Observed(web3, endpoint, address, block).value)
    // one read, on this chain, of the normalised address at the given block, unless normalisation raised
    ensures f.calls == if web3.toChecksumAddress(address).None? then []
                       else [GetCode(chain, web3.toChecksumAddress(address).value, block)]
    // a diagnostic is printed exactly when something raised
    ensures |f.output| <= 1
    ensures f.output != [] <==> Observed(web3, endpoint, address, block).None?
    // that line names the raw address if normalisation raised, the normalised one if the read raised
    ensures f.output != [] ==>
              f.output == [FetchError(if web3.toChecksumAddress(address).None? then address
                                      else web3.toChecksumAddress(address).value)]
  {
    match web3.toChecksumAddress(address)
    case None => Fetch(None, [], [FetchError(address)])
    case Some(a) =>
      match endpoint.getCode(a, block)
      case Raised => Fetch(None, [GetCode(chain, a, block)], [FetchError(a)])
      case Code(bytes) =>
        if |bytes| == 0 then Fetch(None, [GetCode(chain, a, block)], [])
        else Fetch(Some(web3.keccakHex(bytes)), [GetCode(chain, a, block)], [])
  }

  /** Zero-length code is absent, and not reported as an error. */
  lemma EmptyCodeIsAbsent(web3: Web3, chain: Chain, endpoint: Endpoint, address: string, block: string)
    requires web3.toChecksumAddress(address).Some?
    requires endpoint.getCode(web3.toChecksumAddress(address).value, block) == Code([])
    ensures GetCodeHash(web3, chain, endpoint, address, block).hash == None
    ensures GetCodeHash(web3, chain, endpoint, address, block).output == []
  {
  }

  /** The same non-empty bytes always give the same hash, whichever endpoint, address or block served them. */
  lemma SameBytesSameHash(web3: Web3, c1: Chain, e1: Endpoint, a1: string, b1: string,
                          c2: Chain, e2: Endpoint, a2: string, b2: string, bytes: seq<byte>)
    requires Observed(web3, e1, a1, b1) == Some(bytes) && Observed(web3, e2, a2, b2) == Some(bytes)
    requires |bytes| > 0
    ensures GetCodeHash(web3, c1, e1, a1, b1).hash == Some(web3.keccakHex(bytes))
    ensures GetCodeHash(web3, c1, e1, a1, b1).hash == GetCodeHash(web3, c2, e2, a2, b2).hash
  {
  }

  /** A fetch that raised hands its caller the same value as a fetch of empty code. */
  lemma FailureLooksLikeEmpty(web3: Web3, c1: Chain, e1: Endpoint, a1: string, b1: string,
                              c2: Chain, e2: Endpoint, a2: string, b2: string)
    requires Observed(web3, e1, a1, b1) == None
    requires Observed(web3, e2, a2, b2) == Some([])
    ensures GetCodeHash(web3, c1, e1, a1, b1).hash == GetCodeHash(web3, c2, e2, a2, b2).hash == None
  {
  }
}
