/** What the launcher's collaborators answer, and the record of which of
    them were consulted.

    Key decoding, metadata upload, transaction building and submission,
    address derivation and key generation are network or cryptographic
    code outside this model. Each is represented by the outcome it would
    produce on this call, held in an `Environment`; the launcher's
    decision is then a pure function of its arguments and that environment.
 */
module Collaborators {
  import opened Wrappers

  /** `Keypair.from_bytes(base58.b58decode(KEYPAIR))`: the printed public
      key of the payer, or the message of the exception it raised. */
  datatype DecodeOutcome = Decoded(payer: string) | DecodeRaised(msg: string)

  /** `prepare_ipfs(...)`: the metadata URI it returned (`""` also stands
      for a `None` result), or the message of the exception it raised. */
  datatype MetadataOutcome = Uploaded(uri: string) | UploadRaised(msg: string)

  /** `create_token(...)` followed by `send_and_confirm_transaction(...)`:
      an exception from either, or the confirmation flag. */
  datatype CreateOutcome = CreateRaised(msg: string) | CreateSent(confirmed: bool)

  /** `create_buy_tx(...)` followed by `send_and_confirm_transaction(...)`:
      an exception from either, or the confirmation flag. */
  datatype BuyOutcome = BuyRaised(msg: string) | BuySent(confirmed: bool)

  /** Everything outside the launcher that one call depends on. */
  datatype Environment = Environment(
    keypair: Option<string>,   // the KEYPAIR setting
    decode: DecodeOutcome,
    mint: string,              // printed public key of the fresh mint keypair
    metadata: MetadataOutcome,
    create: CreateOutcome,
    poolState: string,         // derive_pdas(mint)['pool_state']
    buy: BuyOutcome)

  /** The fields handed to `prepare_ipfs`. */
  datatype MetadataRequest = MetadataRequest(
    name: string,
    symbol: string,
    description: string,
    twitter: string,
    telegram: string,
    website: string,
    imageUrl: string)

  /** One consultation of a collaborator, with the inputs it was given. */
  datatype Call =
    | DecodeKeypair(encoded: string)
    | GenerateMint
    | PrepareMetadata(request: MetadataRequest)
    | CreateToken(payer: string, mint: string, name: string, symbol: string, uri: string)
    | DerivePdas(mint: string)
    | CreateBuy(payer: string, mint: string, amountIn: real, minimumAmountOut: real)

  /** The step of the workflow a call belongs to. */
  datatype Stage = KeypairDecoding | MintGeneration | MetadataUpload | TokenCreation | PdaDerivation | InitialBuy

  function StageOf(c: Call): Stage
  {
    match c
    case DecodeKeypair(_) => KeypairDecoding
    case GenerateMint => MintGeneration
    case PrepareMetadata(_) => MetadataUpload
    case CreateToken(_, _, _, _, _) => TokenCreation
    case DerivePdas(_) => PdaDerivation
    case CreateBuy(_, _, _, _) => InitialBuy
  }

  /** The position of each step in the only order the steps may happen. */
  function Rank(s: Stage): nat
  {
    match s
    case KeypairDecoding => 0
    case MintGeneration => 1
    case MetadataUpload => 2
    case TokenCreation => 3
    case PdaDerivation => 4
    case InitialBuy => 5
  }

  /** The trace consulted the collaborator of step `s`. */
  predicate Consulted(trace: seq<Call>, s: Stage)
  {
    exists i :: 0 <= i < |trace| && StageOf(trace[i]) == s
  }

  /** The trace follows the pipeline: its i-th call belongs to the i-th
      step, so steps happen in order, none is skipped, none repeats. */
  predicate InPipelineOrder(trace: seq<Call>)
  {
    forall i :: 0 <= i < |trace| ==> Rank(StageOf(trace[i])) == i
  }
}
