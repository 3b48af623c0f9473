/**
 What one run of the cross-chain bytecode check does to the world outside it:
 the operations it performs on the two chain endpoints, in order, and the
 diagnostics it prints (which line, not its rendering).
 */
module Effects {

  /** The two chains a run compares. */
  datatype Chain = Source | Destination

  /** One operation on a chain endpoint. */
  datatype Call =
    | Open(chain: Chain, url: string, timeout: int)          // an HTTP provider is built; no traffic yet
    | IsConnected(chain: Chain)                              // the connectivity probe
    | GetCode(chain: Chain, address: string, block: string)  // the one code read per fetch

  /** A line the program prints, identified by what it reports. */
  datatype Line =
    | InvalidAddress                         // the address was rejected
    | ConnectionFailed(chain: Chain)         // the probe of that chain's endpoint said no
    | Banner(srcRpc: string, dstRpc: string, address: string, srcBlock: string, dstBlock: string)
    | FetchError(address: string)            // something raised while fetching or hashing
    | NoCode(chain: Chain)                   // "no code found" for that chain
    | HashLine(chain: Chain, hash: string)   // the hash fetched from that chain
    | Verdict(matched: bool)                 // MATCH or MISMATCH
    | Completed                              // the timing line
    | Traceback                              // an exception escaped to the interpreter
}
