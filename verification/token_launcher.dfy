/** `TokenLauncherWithBuyTool`: the tool definition it registers, and the
    decision `execute` makes for one call — which checks fail, which
    collaborators it consults in which order, and what it reports.
 */
module TokenLauncher {
  import opened Wrappers
  import opened LaunchInput
  import opened Collaborators
  import opened Report

  /** One call's outcome: the report and the collaborator calls made. */
  datatype Decision = Decision(report: Outcome, trace: seq<Call>)

  /** The tool's answer: its content items, and the calls behind them. */
  datatype Response = Response(items: seq<TextContent>, trace: seq<Call>)

  /** The token gets created: the arguments pass validation, a keypair is
      configured and decodes, the metadata URI is non-empty, and the
      creation transaction is confirmed. */
  predicate CreationConfirmed(args: Arguments, env: Environment)
  {
    && !MissingRequired(args)
    && Truthy(env.keypair)
    && env.decode.Decoded?
    && env.metadata.Uploaded? && env.metadata.uri != ""
    && env.create == CreateSent(true)
  }

  /** The metadata fields handed to the upload; absent social links are
      sent as empty texts. */
  function MetadataRequestOf(args: Arguments): (req: MetadataRequest)
    requires !MissingRequired(args)
    ensures req.name == args.name.value && req.symbol == args.symbol.value
    ensures req.description == args.description.value && req.imageUrl == args.imageUrl.value
    ensures args.twitter.Some? ==> req.twitter == args.twitter.value
    ensures args.twitter.None? ==> req.twitter == ""
    ensures args.telegram.Some? ==> req.telegram == args.telegram.value
    ensures args.telegram.None? ==> req.telegram == ""
    ensures args.website.Some? ==> req.website == args.website.value
    ensures args.website.None? ==> req.website == ""
  {
    MetadataRequest(
      args.name.value, args.symbol.value, args.description.value,
      args.twitter.GetOr(""), args.telegram.GetOr(""), args.website.GetOr(""),
      args.imageUrl.value)
  }

  /** How the buy transaction's outcome is reported. */
  function BuyStatusOf(outcome: BuyOutcome, amount: Amount): (s: BuyStatus)
    ensures s.Bought? <==> outcome == BuySent(true)
    ensures s.Bought? ==> s.amount == amount
    ensures s.BuyFailed? <==> outcome.BuyRaised?
    ensures s.BuyFailed? ==> s.msg == outcome.msg
  {
    match outcome
    case BuyRaised(msg) => BuyFailed(msg)
    case BuySent(confirmed) => if confirmed then Bought(amount) else BuyUnconfirmed
  }

  /** `execute` on one call: validation, the keypair checks, then mint
      generation, metadata upload, token creation, address derivation and,
      for a positive amount, the initial buy; each failing step ends the
      call with its error. */
  function Decide(args: Arguments, env: Environment): (d: Decision)
    ensures d.report.Failed? <==> !CreationConfirmed(args, env)
    ensures MissingRequired(args) ==> d == Decision(Failed(MissingParameters), [])
    ensures d.report == Failed(NoKeypair) <==> !MissingRequired(args) && !Truthy(env.keypair)
    ensures d.trace == [] <==> MissingRequired(args) || !Truthy(env.keypair)
    ensures Consulted(d.trace, InitialBuy) <==>
              CreationConfirmed(args, env) && Coerce(args.initialBuyAmount).value > 0.0
    ensures d.report.Launched? ==> (d.report.buy.Some? <==> Consulted(d.trace, InitialBuy))
  {
    if MissingRequired(args) then
      Decision(Failed(MissingParameters), [])
    else if !Truthy(env.keypair) then
      Decision(Failed(NoKeypair), [])
    else
      var decoding := [DecodeKeypair(env.keypair.value)];
      match env.decode
      case DecodeRaised(msg) => Decision(Failed(InvalidKeypair(msg)), decoding)
      case Decoded(payer) =>
        var uploading := decoding + [GenerateMint, PrepareMetadata(MetadataRequestOf(args))];
        match env.metadata
        case UploadRaised(msg) => Decision(Failed(MetadataRaised(msg)), uploading)
        case Uploaded(uri) =>
          if uri == "" then
            Decision(Failed(EmptyUri), uploading)
          else
            var name, symbol := args.name.value, args.symbol.value;
            var creating := uploading + [CreateToken(payer, env.mint, name, symbol, uri)];
            match env.create
            case CreateRaised(msg) => Decision(Failed(LaunchRaised(msg)), creating)
            case CreateSent(confirmed) =>
              if !confirmed then
                Decision(Failed(CreationFailed), creating)
              else
                var details := LaunchDetails(name, symbol, env.mint, env.poolState, uri, args.imageUrl.value, payer);
                var deriving := creating + [DerivePdas(env.mint)];
                assert StageOf(deriving[3]) == TokenCreation;
                var amount := Coerce(args.initialBuyAmount);
                if amount.value > 0.0 then
                  var minimumOut := Coerce(args.minimumTokenOut);
                  var buying := deriving + [CreateBuy(payer, env.mint, amount.value, minimumOut.value)];
                  assert StageOf(buying[5]) == InitialBuy;
                  Decision(Launched(details, Some(BuyStatusOf(env.buy, amount))), buying)
                else
                  Decision(Launched(details, None), deriving)
  }

  /** `execute`: the decision rendered as the one text item returned. The
      text is an error text exactly when the token was not created. */
  function Execute(args: Arguments, env: Environment): (r: Response)
    ensures |r.items| == 1
    ensures r.trace == Decide(args, env).trace
    ensures IsErrorText(r.items[0].text) <==> !CreationConfirmed(args, env)
  {
    var d := Decide(args, env);
    Response(Render(d.report), d.trace)
  }

  /** The JSON type of a schema property. */
  datatype Kind = StringType | NumberType

  /** One schema property: its key, type, and lower bound if any. */
  datatype Property = Property(key: Key, kind: Kind, minimum: Option<real>)

  /** The input schema: the declared properties and the required keys. */
  datatype Schema = Schema(properties: seq<Property>, required: seq<Key>)

  /** The definition the tool registers. */
  datatype Tool = Tool(name: string, description: string, inputSchema: Schema)

  const ToolName := "launch-token-with-buy"
  const ToolDescription :=
    "Launch a new meme token on Solana using Raydium and optionally perform an initial buy of your own token."

  /** The schema declares `key` with type `kind`. */
  predicate Declares(properties: seq<Property>, key: Key, kind: Kind)
  {
    exists i :: 0 <= i < |properties| && properties[i].key == key && properties[i].kind == kind
  }

  /** `get_tool_definition`: seven text properties, two numbers with
      minimum zero, and the four fields validation insists on required. */
  function ToolDefinition(): (t: Tool)
    ensures t.name == ToolName && t.description == ToolDescription
    ensures |t.inputSchema.properties| == 9
    ensures forall k: Key :: Declares(t.inputSchema.properties, k, if IsAmountKey(k) then NumberType else StringType)
    ensures forall i :: 0 <= i < |t.inputSchema.properties| && t.inputSchema.properties[i].kind == NumberType ==>
              t.inputSchema.properties[i].minimum == Some(0.0)
    ensures t.inputSchema.required == RequiredKeys
  {
    var properties := [
      Property(NameKey, StringType, None),
      Property(SymbolKey, StringType, None),
      Property(DescriptionKey, StringType, None),
      Property(TwitterKey, StringType, None),
      Property(TelegramKey, StringType, None),
      Property(WebsiteKey, StringType, None),
      Property(ImageUrlKey, StringType, None),
      Property(InitialBuyAmountKey, NumberType, Some(0.0)),
      Property(MinimumTokenOutKey, NumberType, Some(0.0))
    ];
    assert properties[7].key == InitialBuyAmountKey && properties[8].key == MinimumTokenOutKey;
    assert properties[0].key == NameKey && properties[1].key == SymbolKey && properties[2].key == DescriptionKey;
    assert properties[3].key == TwitterKey && properties[4].key == TelegramKey;
    assert properties[5].key == WebsiteKey && properties[6].key == ImageUrlKey;
    Tool(ToolName, ToolDescription, Schema(properties, RequiredKeys))
  }
}
