/**
 The decision flow of one run: validate the address, build both providers,
 probe the source and then the destination, fetch both hashes, reject an
 absent side (source first), compare, optionally emit the structured record,
 and exit with 0 (match), 1 (bad input or no connection) or 2 (absent code or
 mismatch).
 */
module Orchestrator {
  import opened Wrappers
  import opened Effects
  import opened CodeFetcher
  import opened Comparator

  /** The command line, already parsed. */
  datatype Args = Args(
    srcRpc: string, dstRpc: string, address: string,
    srcBlock: string, dstBlock: string, timeout: int, json: bool)

  /** The structured record printed under `--json` (without the elapsed time). */
  datatype Record = Record(
    address: string, srcRpc: string, dstRpc: string,
    srcBlock: string, dstBlock: string,
    srcHash: string, dstHash: string, matched: bool)

  /** Everything one run does: endpoint operations, printed lines, the record if any, the exit status. */
  datatype Run = Run(calls: seq<Call>, output: seq<Line>, record: Option<Record>, exitCode: int)

  /** The two providers, built once the address is accepted. */
  function Opened(args: Args): (r: seq<Call>)
    // two constructions, source first, each with its own URL and the common timeout; nothing is read
    ensures |r| == 2 && forall c :: c in r ==> c.Open? && c.timeout == args.timeout
    ensures r[0].chain == Source && r[0].url == args.srcRpc
    ensures r[1].chain == Destination && r[1].url == args.dstRpc
  {
    [Open(Source, args.srcRpc, args.timeout), Open(Destination, args.dstRpc, args.timeout)]
  }

  /** The address is accepted and both endpoints answer their probe. */
  predicate GatesPass(web3: Web3, args: Args, src: Endpoint, dst: Endpoint)
  {
    web3.isAddress(args.address) && src.connected && dst.connected
  }

  function SrcFetch(web3: Web3, args: Args, src: Endpoint): (f: Fetch)
    // at most one read, on the source chain, at the source block
    ensures |f.calls| <= 1
    ensures forall c :: c in f.calls ==> c.GetCode? && c.chain == Source && c.block == args.srcBlock
    // a hash only when that chain returned non-empty code for the address
    ensures f.hash.Some? <==> var o := Observed(web3, src, args.address, args.srcBlock); o.Some? && |o.value| > 0
  {
    GetCodeHash(web3, Source, src, args.address, args.srcBlock)
  }

  function DstFetch(web3: Web3, args: Args, dst: Endpoint): (f: Fetch)
    // at most one read, on the destination chain, at the destination block
    ensures |f.calls| <= 1
    ensures forall c :: c in f.calls ==> c.GetCode? && c.chain == Destination && c.block == args.dstBlock
    // a hash only when that chain returned non-empty code for the address
    ensures f.hash.Some? <==> var o := Observed(web3, dst, args.address, args.dstBlock); o.Some? && |o.value| > 0
  {
    GetCodeHash(web3, Destination, dst, args.address, args.dstBlock)
  }

  /** Both fetches produced a hash. */
  predicate BothPresent(web3: Web3, args: Args, src: Endpoint, dst: Endpoint)
  {
    SrcFetch(web3, args, src).hash.Some? && DstFetch(web3, args, dst).hash.Some?
  }

  /** The comparison verdict on the two fetched hashes. */
  predicate HashesMatch(web3: Web3, args: Args, src: Endpoint, dst: Endpoint)
    requires BothPresent(web3, args, src, dst)
  {
    Matches(SrcFetch(web3, args, src).hash.value, DstFetch(web3, args, dst).hash.value)
  }

  function LastLine(r: Run): Option<Line>
  {
    if r.output == [] then None else Some(r.output[|r.output| - 1])
  }

  /** `main`, from the parsed arguments to the exit status. */
  function Execute(web3: Web3, args: Args, src: Endpoint, dst: Endpoint): (r: Run)
    ensures r.exitCode in {0, 1, 2}
    // exit 1: the input or a connection failed
    ensures r.exitCode == 1 <==> !GatesPass(web3, args, src, dst)
    // exit 0: both hashes present and equal up to case
    ensures r.exitCode == 0 <==>
              GatesPass(web3, args, src, dst) && BothPresent(web3, args, src, dst)
              && HashesMatch(web3, args, src, dst)
    // exit 2: a side is absent, or both are present and differ
    ensures r.exitCode == 2 <==>
              GatesPass(web3, args, src, dst)
              && (!BothPresent(web3, args, src, dst) || !HashesMatch(web3, args, src, dst))
    // the second normalisation of the address, outside any handler, never raises
    ensures Traceback !in r.output
  {
    if !web3.isAddress(args.address) then
      Run([], [InvalidAddress], None, 1)
    else if !src.connected then
      Run(Opened(args) + [IsConnected(Source)], [ConnectionFailed(Source)], None, 1)
    else if !dst.connected then
      Run(Opened(args) + [IsConnected(Source), IsConnected(Destination)], [ConnectionFailed(Destination)], None, 1)
    else
      var s := SrcFetch(web3, args, src);
      var d := DstFetch(web3, args, dst);
      var calls := Opened(args) + [IsConnected(Source), IsConnected(Destination)] + s.calls + d.calls;
      var shown := [Banner(args.srcRpc, args.dstRpc, args.address, args.srcBlock, args.dstBlock)]
                   + s.output + d.output;
      if s.hash.None? then
        Run(calls, shown + [NoCode(Source)], None, 2)
      else if d.hash.None? then
        Run(calls, shown + [NoCode(Destination)], None, 2)
      else
        var matched := Matches(s.hash.value, d.hash.value);
        var reported := shown + [HashLine(Source, s.hash.value), HashLine(Destination, d.hash.value),
                                 Verdict(matched), Completed];
        var status := if matched then 0 else 2;
        if !args.json then
          Run(calls, reported, None, status)
        else
          match web3.toChecksumAddress(args.address)
          case None => Run(calls, reported + [Traceback], None, 1)
          case Some(a) =>
            Run(calls, reported,
                Some(Record(a, args.srcRpc, args.dstRpc, args.srcBlock, args.dstBlock,
                            s.hash.value, d.hash.value, matched)),
                status)
  }

  /** A rejected address ends the run before any provider is built, probed or read. */
  lemma InvalidAddressStopsEverything(web3: Web3, args: Args, src: Endpoint, dst: Endpoint)
    requires !web3.isAddress(args.address)
    ensures Execute(web3, args, src, dst).calls == []
    ensures Execute(web3, args, src, dst).output == [InvalidAddress]
    ensures Execute(web3, args, src, dst).record == None
    ensures Execute(web3, args, src, dst).exitCode == 1
  {
  }

  /** The source is probed first; if it fails, the destination is never probed and no code is read. */
  lemma SourceProbedFirst(web3: Web3, args: Args, src: Endpoint, dst: Endpoint)
    requires web3.isAddress(args.address) && !src.connected
    ensures Execute(web3, args, src, dst).calls == Opened(args) + [IsConnected(Source)]
    ensures LastLine(Execute(web3, args, src, dst)) == Some(ConnectionFailed(Source))
    ensures Execute(web3, args, src, dst).exitCode == 1
  {
  }

  /** A failed destination probe comes after a successful source probe, and before any code read. */
  lemma DestinationProbedSecond(web3: Web3, args: Args, src: Endpoint, dst: Endpoint)
    requires web3.isAddress(args.address) && src.connected && !dst.connected
    ensures Execute(web3, args, src, dst).calls
            == Opened(args) + [IsConnected(Source), IsConnected(Destination)]
    ensures LastLine(Execute(web3, args, src, dst)) == Some(ConnectionFailed(Destination))
    ensures Execute(web3, args, src, dst).exitCode == 1
  {
  }

  /** No code is read unless both probes succeeded. */
  lemma NoReadBeforeConnectivity(web3: Web3, args: Args, src: Endpoint, dst: Endpoint)
    requires !GatesPass(web3, args, src, dst)
    ensures forall c :: c in Execute(web3, args, src, dst).calls ==> !c.GetCode?
    ensures Execute(web3, args, src, dst).record == None
  {
  }

  /** Past the gates, both fetches are issued, source first, whatever either of them returns. */
  lemma BothFetchesBeforeAbsenceChecks(web3: Web3, args: Args, src: Endpoint, dst: Endpoint)
    requires GatesPass(web3, args, src, dst)
    ensures Execute(web3, args, src, dst).calls
            == Opened(args) + [IsConnected(Source), IsConnected(Destination)]
               + SrcFetch(web3, args, src).calls + DstFetch(web3, args, dst).calls
  {
  }

  /** An absent source is reported (exit 2) even when the destination is absent too. */
  lemma SourceAbsenceWins(web3: Web3, args: Args, src: Endpoint, dst: Endpoint)
    requires GatesPass(web3, args, src, dst)
    requires SrcFetch(web3, args, src).hash.None?
    ensures LastLine(Execute(web3, args, src, dst)) == Some(NoCode(Source))
    ensures NoCode(Destination) !in Execute(web3, args, src, dst).output
    ensures Execute(web3, args, src, dst).record == None
    ensures Execute(web3, args, src, dst).exitCode == 2
  {
  }

  /** An absent destination with a present source is reported as such, not as a mismatch. */
  lemma DestinationAbsence(web3: Web3, args: Args, src: Endpoint, dst: Endpoint)
    requires GatesPass(web3, args, src, dst)
    requires SrcFetch(web3, args, src).hash.Some? && DstFetch(web3, args, dst).hash.None?
    ensures LastLine(Execute(web3, args, src, dst)) == Some(NoCode(Destination))
    ensures forall m :: Verdict(m) !in Execute(web3, args, src, dst).output
    ensures Execute(web3, args, src, dst).exitCode == 2
  {
  }

  /** A verdict line appears exactly when both hashes are present, and it carries the comparison. */
  lemma VerdictPrinted(web3: Web3, args: Args, src: Endpoint, dst: Endpoint, m: bool)
    ensures Verdict(m) in Execute(web3, args, src, dst).output <==>
              GatesPass(web3, args, src, dst) && BothPresent(web3, args, src, dst)
              && m == HashesMatch(web3, args, src, dst)
  {
  }

  /** The record is emitted only under `--json` with both hashes present, and carries them unchanged. */
  lemma RecordEmission(web3: Web3, args: Args, src: Endpoint, dst: Endpoint)
    ensures Execute(web3, args, src, dst).record.Some? <==>
              GatesPass(web3, args, src, dst) && args.json && BothPresent(web3, args, src, dst)
    ensures Execute(web3, args, src, dst).record.Some? ==>
              var rec := Execute(web3, args, src, dst).record.value;
              && web3.toChecksumAddress(args.address) == Some(rec.address)
              && rec.srcRpc == args.srcRpc && rec.dstRpc == args.dstRpc
              && rec.srcBlock == args.srcBlock && rec.dstBlock == args.dstBlock
              && Some(rec.srcHash) == SrcFetch(web3, args, src).hash
              && Some(rec.dstHash) == DstFetch(web3, args, dst).hash
              && rec.matched == HashesMatch(web3, args, src, dst)
              && rec.matched == (Execute(web3, args, src, dst).exitCode == 0)
  {
  }

  /** Identical non-empty code on both chains always gives exit 0. */
  lemma IdenticalCodeExitsZero(web3: Web3, args: Args, src: Endpoint, dst: Endpoint, bytes: seq<byte>)
    requires GatesPass(web3, args, src, dst)
    requires Observed(web3, src, args.address, args.srcBlock) == Some(bytes)
    requires Observed(web3, dst, args.address, args.dstBlock) == Some(bytes)
    requires |bytes| > 0
    ensures Execute(web3, args, src, dst).exitCode == 0
  {
    MatchesReflexive(web3.keccakHex(bytes));
  }

  /** A fetch that raises past the gates leads to exit 2 (absent), never to exit 1. */
  lemma FetchFailureExitsTwo(web3: Web3, args: Args, src: Endpoint, dst: Endpoint)
    requires GatesPass(web3, args, src, dst)
    requires Observed(web3, src, args.address, args.srcBlock).None?
             || Observed(web3, dst, args.address, args.dstBlock).None?
    ensures Execute(web3, args, src, dst).exitCode == 2
    ensures Execute(web3, args, src, dst).record == None
  {
  }

  /**
   Two destinations that answer the probe alike, one whose read raises and one
   that returns empty code, lead to the same exit status, the same record and the same final diagnostic: the caller
   cannot tell them apart.
   */
  lemma FailureIndistinguishableFromEmpty(web3: Web3, args: Args, src: Endpoint, dst1: Endpoint, dst2: Endpoint)
    requires Observed(web3, dst1, args.address, args.dstBlock) == None
    requires Observed(web3, dst2, args.address, args.dstBlock) == Some([])
    requires dst1.connected == dst2.connected
    ensures Execute(web3, args, src, dst1).exitCode == Execute(web3, args, src, dst2).exitCode
    ensures Execute(web3, args, src, dst1).record == Execute(web3, args, src, dst2).record == None
    ensures LastLine(Execute(web3, args, src, dst1)) == LastLine(Execute(web3, args, src, dst2))
  {
  }

  /**
   With a digest that is printed in lower case and never collides, exit 0 means
   exactly that both chains returned the same non-empty bytes.
   */
  lemma ExitZeroIffSameBytes(web3: Web3, args: Args, src: Endpoint, dst: Endpoint)
    requires GatesPass(web3, args, src, dst)
    requires forall bs :: IsLowerCase(web3.keccakHex(bs))
    requires forall x, y :: web3.keccakHex(x) == web3.keccakHex(y) ==> x == y
    ensures Execute(web3, args, src, dst).exitCode == 0 <==>
              var s := Observed(web3, src, args.address, args.srcBlock);
              var d := Observed(web3, dst, args.address, args.dstBlock);
              s.Some? && |s.value| > 0 && s == d
  {
    var s := Observed(web3, src, args.address, args.srcBlock);
    var d := Observed(web3, dst, args.address, args.dstBlock);
    if BothPresent(web3, args, src, dst) {
      var hs, hd := web3.keccakHex(s.value), web3.keccakHex(d.value);
      MatchesOnLowerCaseIsEquality(hs, hd);
    }
  }
}
