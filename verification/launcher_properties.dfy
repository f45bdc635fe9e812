/** Properties of the launcher relating several calls or several steps:
    the pipeline order of the trace, where a failure stops it, what a
    launch reports, which arguments can influence what, and that the
    response texts tell the outcomes apart.
 */
module LauncherProperties {
  import opened Wrappers
  import opened Text
  import opened LaunchInput
  import opened Collaborators
  import opened Report
  import opened TokenLauncher

  /** The collaborator calls of every decision follow the pipeline. */
  lemma TraceFollowsPipeline(args: Arguments, env: Environment)
    ensures InPipelineOrder(Decide(args, env).trace)
  {
    var t := Decide(args, env).trace;
    if !MissingRequired(args) && Truthy(env.keypair) && env.decode.Decoded? {
      assert StageOf(t[0]) == KeypairDecoding && StageOf(t[1]) == MintGeneration;
      assert StageOf(t[2]) == MetadataUpload;
    }
  }

  /** The step whose collaborator reported the failure; none for the two
      checks made before any collaborator is consulted. */
  function FailingStep(f: Failure): Option<Stage>
  {
    match f
    case MissingParameters => None
    case NoKeypair => None
    case InvalidKeypair(_) => Some(KeypairDecoding)
    case MetadataRaised(_) => Some(MetadataUpload)
    case EmptyUri => Some(MetadataUpload)
    case LaunchRaised(_) => Some(TokenCreation)
    case CreationFailed => Some(TokenCreation)
  }

  /** A failed call stops at the step that failed: its last call is that
      step's, no later step is consulted, and address derivation and the
      buy never happen. */
  lemma FailureStopsAtFailingStep(args: Arguments, env: Environment)
    requires Decide(args, env).report.Failed?
    ensures var d := Decide(args, env);
            var step := FailingStep(d.report.failure);
            && (d.trace == [] <==> step.None?)
            && (step.Some? ==> |d.trace| == Rank(step.value) + 1 && StageOf(d.trace[|d.trace| - 1]) == step.value)
            && !Consulted(d.trace, PdaDerivation) && !Consulted(d.trace, InitialBuy)
  {
    var d := Decide(args, env);
    TraceFollowsPipeline(args, env);
    assert |d.trace| <= 4;
  }

  /** Each collaborator's exception is reported with its own message, by
      the step that raised it. */
  lemma RaisedMessagesAreReported(args: Arguments, env: Environment)
    requires !MissingRequired(args) && Truthy(env.keypair)
    ensures env.decode.DecodeRaised? ==>
              Decide(args, env).report == Failed(InvalidKeypair(env.decode.msg))
    ensures env.decode.Decoded? && env.metadata.UploadRaised? ==>
              Decide(args, env).report == Failed(MetadataRaised(env.metadata.msg))
    ensures env.decode.Decoded? && env.metadata == Uploaded("") ==>
              Decide(args, env).report == Failed(EmptyUri)
    ensures env.decode.Decoded? && env.metadata.Uploaded? && env.metadata.uri != "" && env.create.CreateRaised? ==>
              Decide(args, env).report == Failed(LaunchRaised(env.create.msg))
    ensures env.decode.Decoded? && env.metadata.Uploaded? && env.metadata.uri != "" && env.create == CreateSent(false) ==>
              Decide(args, env).report == Failed(CreationFailed)
  {
  }

  /** What a created token's report and trace hold: the arguments, the
      collaborators' answers, and a buy exactly when the amount is
      positive, with the coerced amounts passed to the buy. */
  lemma LaunchReportContents(args: Arguments, env: Environment)
    requires CreationConfirmed(args, env)
    ensures var d := Decide(args, env);
            var amount := Coerce(args.initialBuyAmount);
            && d.report.Launched?
            && d.report.details == LaunchDetails(args.name.value, args.symbol.value, env.mint, env.poolState,
                                                 env.metadata.uri, args.imageUrl.value, env.decode.payer)
            && d.report.buy == (if amount.value > 0.0 then Some(BuyStatusOf(env.buy, amount)) else None)
            && d.trace[..5] == [ DecodeKeypair(env.keypair.value), GenerateMint, PrepareMetadata(MetadataRequestOf(args)),
                                 CreateToken(env.decode.payer, env.mint, args.name.value, args.symbol.value, env.metadata.uri),
                                 DerivePdas(env.mint) ]
            && (amount.value > 0.0 ==>
                  |d.trace| == 6 &&
                  d.trace[5] == CreateBuy(env.decode.payer, env.mint, amount.value, Coerce(args.minimumTokenOut).value))
            && (amount.value <= 0.0 ==> |d.trace| == 5)
  {
  }

  /** The two amounts are read only after the token is created: a call
      that fails decides the same whatever amounts it carries. */
  lemma FailureIgnoresAmounts(args: Arguments, env: Environment, amount: RawAmount, minimum: RawAmount)
    requires !CreationConfirmed(args, env)
    ensures Decide(args.(initialBuyAmount := amount, minimumTokenOut := minimum), env) == Decide(args, env)
  {
  }

  /** The slippage bound reaches only the buy transaction: changing it
      changes neither the report nor any earlier call. */
  lemma MinimumOutOnlyReachesBuy(args: Arguments, env: Environment, minimum: RawAmount)
    ensures var d, e := Decide(args, env), Decide(args.(minimumTokenOut := minimum), env);
            && e.report == d.report
            && |e.trace| == |d.trace|
            && (|d.trace| <= 5 ==> e.trace == d.trace)
            && (|d.trace| == 6 ==>
                  e.trace[..5] == d.trace[..5] &&
                  e.trace[5] == d.trace[5].(minimumAmountOut := Coerce(minimum).value))
  {
  }

  /** The social links reach only the metadata upload: changing them
      changes neither the report nor any call but the upload's. */
  lemma SocialLinksOnlyReachMetadata(args: Arguments, env: Environment, twitter: Option<string>, telegram: Option<string>, website: Option<string>)
    ensures var d, e := Decide(args, env), Decide(args.(twitter := twitter, telegram := telegram, website := website), env);
            && e.report == d.report
            && |e.trace| == |d.trace|
            && (forall i :: 0 <= i < |d.trace| && i != 2 ==> e.trace[i] == d.trace[i])
  {
  }

  /** The text of a created token, read line by line: the eight creation
      lines, then the buy's blank and status lines when the amount is
      positive. */
  lemma LaunchTextLines(args: Arguments, env: Environment)
    requires CreationConfirmed(args, env)
    ensures var d := Decide(args, env);
            var amount := Coerce(args.initialBuyAmount);
            var lines := CreationLines(d.report.details) +
                         (if amount.value > 0.0 then ["", StatusLine(BuyStatusOf(env.buy, amount))] else []);
            SeparatorFree(lines, '\n') ==> Split(Execute(args, env).items[0].text, '\n') == lines
  {
    var d := Decide(args, env);
    LaunchReportContents(args, env);
    var lines := ReportLines(d.report.details, d.report.buy);
    if SeparatorFree(lines, '\n') {
      LaunchTextReadsBack(d.report.details, d.report.buy);
    }
  }

  /** The buy section only appends to a launch report: the text with a
      buy is the text without one, a blank line, and the status line. */
  lemma BuyOnlyAppends(d: LaunchDetails, s: BuyStatus)
    ensures Render(Launched(d, Some(s)))[0].text ==
            Render(Launched(d, None))[0].text + "\n\n" + StatusLine(s)
  {
    var lines, status := CreationLines(d), StatusLine(s);
    var without := Join(lines, '\n');
    JoinAppendTwo(lines, "", status, '\n');
    assert without + ['\n'] + "" + ['\n'] + status == without + "\n\n" + status;
    assert ReportLines(d, Some(s)) == lines + ["", status];
    assert ReportLines(d, None) == lines;
  }

  /** The third character of each failure's wording, which tells the
      kinds of failure apart except the two metadata ones. */
  function LeadOf(f: Failure): char
  {
    match f
    case MissingParameters => 'M'
    case NoKeypair => 'N'
    case InvalidKeypair(_) => 'I'
    case MetadataRaised(_) => 'F'
    case EmptyUri => 'F'
    case LaunchRaised(_) => 'a'
    case CreationFailed => 'T'
  }

  lemma ErrorDetailLead(f: Failure)
    ensures |ErrorDetail(f)| > 2 && ErrorDetail(f)[2] == LeadOf(f)
  {
    match f
    case MissingParameters =>
      assert ErrorDetail(f)[2] == ": Missing"[2];
    case NoKeypair =>
      assert ErrorDetail(f)[2] == ": No keypair"[2];
    case InvalidKeypair(m) =>
      assert ErrorDetail(f)[2] == InvalidKeypairLead[2];
    case MetadataRaised(m) =>
      assert ErrorDetail(f)[2] == MetadataFailedLead[2];
    case EmptyUri =>
      assert ErrorDetail(f)[2] == MetadataFailedLead[2];
    case LaunchRaised(m) =>
      assert ErrorDetail(f)[2] == LaunchRaisedLead[2];
    case CreationFailed =>
      var text := ": Token creation failed.";
      assert ErrorDetail(f) == text;
      assert |text| > 2 && text[2] == 'T';
  }

  /** Different failures give different error texts, except for the one
      metadata exception whose message is the empty-URI hint itself. */
  lemma {:induction false} ErrorTextIdentifiesFailure(f: Failure, g: Failure)
    requires ErrorText(f) == ErrorText(g)
    ensures || f == g
            || (f == EmptyUri && g == MetadataRaised(EmptyUriHint))
            || (g == EmptyUri && f == MetadataRaised(EmptyUriHint))
  {
    assert ErrorDetail(f) == ErrorText(f)[|ErrorMark|..];
    assert ErrorDetail(g) == ErrorText(g)[|ErrorMark|..];
    ErrorDetailLead(f);
    ErrorDetailLead(g);
    assert LeadOf(f) == ErrorText(f)[|ErrorMark| + 2] == LeadOf(g);
    match f
    case InvalidKeypair(m) =>
      assert m == ErrorDetail(f)[|InvalidKeypairLead|..] == ErrorDetail(g)[|InvalidKeypairLead|..] == g.msg;
    case MetadataRaised(m) =>
      assert m == ErrorDetail(f)[|MetadataFailedLead|..];
      if g.MetadataRaised? {
        assert g.msg == ErrorDetail(g)[|MetadataFailedLead|..];
      }
    case EmptyUri =>
      if g.MetadataRaised? {
        assert g.msg == ErrorDetail(g)[|MetadataFailedLead|..] == EmptyUriHint;
      }
    case LaunchRaised(m) =>
      assert m == ErrorDetail(f)[|LaunchRaisedLead|..] == ErrorDetail(g)[|LaunchRaisedLead|..] == g.msg;
    case _ =>
  }

  /** The two validation errors name the check that failed: the response
      is the missing-parameters text exactly when a required field is
      falsy, and the no-keypair text exactly when the fields are present
      and no keypair is configured. */
  lemma ValidationTextsIdentifyTheirCheck(args: Arguments, env: Environment)
    ensures Execute(args, env).items[0].text == ErrorText(MissingParameters) <==> MissingRequired(args)
    ensures Execute(args, env).items[0].text == ErrorText(NoKeypair) <==>
              !MissingRequired(args) && !Truthy(env.keypair)
  {
    var d := Decide(args, env);
    var text := Execute(args, env).items[0].text;
    if d.report.Failed? {
      assert text == ErrorText(d.report.failure);
      if text == ErrorText(MissingParameters) {
        ErrorTextIdentifiesFailure(d.report.failure, MissingParameters);
      }
      if text == ErrorText(NoKeypair) {
        ErrorTextIdentifiesFailure(d.report.failure, NoKeypair);
      }
    } else {
      assert !IsErrorText(text);
    }
  }

  /** The schema's required keys are exactly the fields validation checks:
      a call is rejected as missing parameters when, and only when, some
      required key holds no truthy text. */
  lemma RequiredFieldsMatchSchema(args: Arguments)
    ensures MissingRequired(args) <==>
              exists k :: k in ToolDefinition().inputSchema.required && !Truthy(TextField(args, k))
  {
  }
}
