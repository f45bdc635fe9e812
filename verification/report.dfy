/** The report assembler: the error texts of the failed steps, and the
    lines of a launch report with its optional buy section, joined into the
    one text item the tool returns.
 */
module Report {
  import opened Wrappers
  import opened Text
  import opened LaunchInput

  /** Why a call stopped before the token was launched, in the order the
      checks happen. */
  datatype Failure =
    | MissingParameters
    | NoKeypair
    | InvalidKeypair(msg: string)
    | MetadataRaised(msg: string)
    | EmptyUri
    | LaunchRaised(msg: string)
    | CreationFailed

  /** The word every error text starts with. */
  const ErrorMark := "Error"

  /** The invalid-keypair error text after the error mark, up to the detail. */
  const InvalidKeypairLead := ": Invalid keypair format. "
  /** The launch error text after the error mark, up to the detail. */
  const LaunchRaisedLead := " launching token: "
  /** The metadata error text after the error mark, up to the detail. */
  const MetadataFailedLead := ": Failed to prepare IPFS metadata. "
  /** The fixed tail of the empty-URI error, after the metadata lead. */
  const EmptyUriHint := "Please check your image URL and try again."

  /** The error text the tool returns for a failure: the error mark, then
      the failure's own wording. */
  function ErrorText(f: Failure): (text: string)
    ensures IsErrorText(text)
  {
    ErrorMark + ErrorDetail(f)
  }

  /** The wording of a failure after the error mark. Each fixed text
      starts with a short piece, so that proofs can read its first
      characters cheaply. A raised message follows its step's lead
      unchanged. */
  function ErrorDetail(f: Failure): (detail: string)
    ensures f.InvalidKeypair? ==> InvalidKeypairLead <= detail && detail[|InvalidKeypairLead|..] == f.msg
    ensures f.MetadataRaised? ==> MetadataFailedLead <= detail && detail[|MetadataFailedLead|..] == f.msg
    ensures f.EmptyUri? ==> MetadataFailedLead <= detail && detail[|MetadataFailedLead|..] == EmptyUriHint
    ensures f.LaunchRaised? ==> LaunchRaisedLead <= detail && detail[|LaunchRaisedLead|..] == f.msg
  {
    match f
    case MissingParameters =>
      ": Missing" + " required parameters." + " Please provide name, symbol, description, and image_url."
    case NoKeypair =>
      ": No keypair" + " configured in settings." + " Please set the KEYPAIR environment variable."
    case InvalidKeypair(msg) => InvalidKeypairLead + msg
    case MetadataRaised(msg) => MetadataFailedLead + msg
    case EmptyUri => MetadataFailedLead + EmptyUriHint
    case LaunchRaised(msg) => LaunchRaisedLead + msg
    case CreationFailed => ": Token creation failed."
  }

  /** The text starts with "Error", as every error text of the launcher does. */
  predicate IsErrorText(text: string)
  {
    ErrorMark <= text
  }

  /** What a launch reports about itself: the arguments, the collaborators'
      answers, and the two public keys. */
  datatype LaunchDetails = LaunchDetails(
    name: string,
    symbol: string,
    mint: string,
    poolState: string,
    uri: string,
    imageUrl: string,
    payer: string)

  /** How an attempted initial buy ended. */
  datatype BuyStatus = Bought(amount: Amount) | BuyUnconfirmed | BuyFailed(msg: string)

  /** A launch report: a failure, or the details of a launch and, when a
      buy was attempted, its status. */
  datatype Outcome = Failed(failure: Failure) | Launched(details: LaunchDetails, buy: Option<BuyStatus>)

  /** One `TextContent` item of the response. */
  datatype TextContent = TextContent(text: string)

  const LaunchHeaderPrefix := "Successfully launched token: "
  const MintLabel := "Mint Address: "
  const PoolStateLabel := "Pool State: "
  const UriLabel := "Token URI: "
  const ImageLabel := "Image URL: "
  const PayerLabel := "Funded from account: "
  const BuySucceededPrefix := "Initial buy succeeded: spent "
  /** The words both buy-failure lines start with. */
  const BuyFailedMark := "Token launched, but initial buy failed"

  /** The eight lines every launch reports, in order: header, blank, mint,
      pool state, URI, image, blank, funding account. */
  function CreationLines(d: LaunchDetails): (lines: seq<string>)
    ensures |lines| == 8
    ensures LaunchHeaderPrefix + d.name + " (" <= lines[0]
    ensures lines[1] == "" && lines[6] == ""
    ensures MintLabel <= lines[2] && PoolStateLabel <= lines[3] && UriLabel <= lines[4]
    ensures ImageLabel <= lines[5] && PayerLabel <= lines[7]
  {
    [ LaunchHeaderPrefix + d.name + " (" + d.symbol + ")",
      "",
      MintLabel + d.mint,
      PoolStateLabel + d.poolState,
      UriLabel + d.uri,
      ImageLabel + d.imageUrl,
      "",
      PayerLabel + d.payer ]
  }

  /** Every detail of a launch can be read back from its line: the text
      after each label is the detail itself, and the header ends with the
      symbol in parentheses. */
  lemma CreationLinesReadBack(d: LaunchDetails)
    ensures var lines := CreationLines(d);
            && lines[0][|LaunchHeaderPrefix|..|LaunchHeaderPrefix| + |d.name|] == d.name
            && lines[0][|lines[0]| - |d.symbol| - 1..|lines[0]| - 1] == d.symbol
            && lines[0][|lines[0]| - 1] == ')'
            && lines[2][|MintLabel|..] == d.mint
            && lines[3][|PoolStateLabel|..] == d.poolState
            && lines[4][|UriLabel|..] == d.uri
            && lines[5][|ImageLabel|..] == d.imageUrl
            && lines[7][|PayerLabel|..] == d.payer
  {
    var header := CreationLines(d)[0];
    assert header == LaunchHeaderPrefix + d.name + " (" + d.symbol + ")";
  }

  /** The status line of an attempted buy: a success line naming the
      requested amount exactly for a confirmed buy, and a failure line,
      with the exception message if there was one, otherwise. */
  function StatusLine(s: BuyStatus): (line: string)
    ensures s.Bought? <==> BuySucceededPrefix <= line
    ensures !s.Bought? <==> BuyFailedMark <= line
    ensures s.Bought? ==> line == BuySucceededPrefix + s.amount.shown + " SOL"
    ensures s.BuyUnconfirmed? ==> line == BuyFailedMark + "."
    ensures s.BuyFailed? ==> line == BuyFailedMark + ": " + s.msg
  {
    match s
    case Bought(amount) =>
      var line := BuySucceededPrefix + amount.shown + " SOL";
      assert line[0] != BuyFailedMark[0];
      line
    case BuyUnconfirmed =>
      var line := BuyFailedMark + ".";
      assert line[0] != BuySucceededPrefix[0];
      line
    case BuyFailed(msg) =>
      var line := BuyFailedMark + ": " + msg;
      assert line[0] != BuySucceededPrefix[0];
      line
  }

  /** The lines of a launch report: the creation lines, then a blank line
      and the status line if a buy was attempted. */
  function ReportLines(d: LaunchDetails, buy: Option<BuyStatus>): (lines: seq<string>)
    ensures |lines| >= 8 && lines[..8] == CreationLines(d)
    ensures buy.None? ==> |lines| == 8
    ensures buy.Some? ==> |lines| == 10 && lines[8] == "" && lines[9] == StatusLine(buy.value)
  {
    CreationLines(d) + (if buy.Some? then ["", StatusLine(buy.value)] else [])
  }

  /** The one text item the tool returns for a report: the error text, or
      the report lines joined with newlines. */
  function Render(report: Outcome): (items: seq<TextContent>)
    ensures |items| == 1
    ensures report.Failed? ==> items[0].text == ErrorText(report.failure)
    ensures report.Launched? ==> !IsErrorText(items[0].text)
  {
    match report
    case Failed(f) => [TextContent(ErrorText(f))]
    case Launched(d, buy) =>
      var lines := ReportLines(d, buy);
      var text := Join(lines, '\n');
      assert text[0] == lines[0][0] == LaunchHeaderPrefix[0] != ErrorMark[0];
      [TextContent(text)]
  }

  /** A launch text reads back as its lines when no line holds a newline. */
  lemma LaunchTextReadsBack(d: LaunchDetails, buy: Option<BuyStatus>)
    requires SeparatorFree(ReportLines(d, buy), '\n')
    ensures Split(Render(Launched(d, buy))[0].text, '\n') == ReportLines(d, buy)
  {
    SplitJoin(ReportLines(d, buy), '\n');
  }

  /** The status line tells the buy outcomes apart: equal lines come from
      equal statuses, up to the value of two amounts that print alike. In
      particular the plain failure line is no exception line. */
  lemma StatusLineIdentifiesStatus(s: BuyStatus, t: BuyStatus)
    requires StatusLine(s) == StatusLine(t)
    ensures s == t || (s.Bought? && t.Bought? && s.amount.shown == t.amount.shown)
  {
    var line := StatusLine(s);
    var n := |BuySucceededPrefix|;
    var m := |BuyFailedMark|;
    if s.Bought? && t.Bought? {
      assert s.amount.shown == line[n..|line| - 4] == t.amount.shown;
    } else if !s.Bought? && !t.Bought? {
      if s.BuyFailed? && t.BuyFailed? {
        assert s.msg == line[m + 2..] == t.msg;
      }
    }
  }
}
