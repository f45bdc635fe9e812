# Launch-token-with-buy tool, as a Dafny model

This project models `TokenLauncherWithBuyTool` from bonk-mcp: the MCP tool
that validates a launch request, decodes the configured payer keypair,
uploads the token metadata to IPFS, creates the token on the LetsBonk /
Raydium launchpad, derives the pool addresses and, when asked for a
positive amount, buys some of the new token with the same payer. Each
failing step before creation ends the call with an error text; a failed
buy does not, and is reported as a line after the launch report.

The network and cryptographic collaborators are not modelled: their
answers for one call are fields of an `Environment` value. The tool's
decision then becomes a pure function `TokenLauncher.Decide` from the
arguments and that environment to a structured report plus the trace of
collaborator calls made. `Report.Render` turns the report into the one
text item the tool returns, and `TokenLauncher.Execute` composes the two.

Files and modules:

- `wrappers.dfy` (`Wrappers`) — the `Option` type.
- `text.dfy` (`Text`) — newline joining as Python's `"\n".join` does it,
  splitting, and the lemmas that make them inverse.
- `launch_input.dfy` (`LaunchInput`) — the arguments dictionary, Python
  truthiness, and the `float(x or 0)` coercion of the amounts.
- `collaborators.dfy` (`Collaborators`) — the collaborators' outcomes, the
  calls made to them, and the order of the pipeline steps.
- `report.dfy` (`Report`) — the error texts, the launch lines and buy
  status line, and rendering.
- `token_launcher.dfy` (`TokenLauncher`) — the decision, `execute`, and the
  registered tool definition.
- `launcher_properties.dfy` (`LauncherProperties`) — properties relating
  steps, outcomes and arguments.

Behaviour of the code worth knowing, which the model keeps:

- A required field made only of blanks passes validation: the guard tests
  Python truthiness (`not name`), so only an absent, null or empty value fails.
- A negative `initial_buy_amount` means that no buy happens. A negative
  `minimum_token_out` is passed to the buy unchanged.
- A malformed amount makes `float(...)` raise before validation, and that
  exception escapes the tool; see Left out.
- The success line reports the amount that was requested, not an amount
  that was filled.

## Model

| member | source | states |
|---|---|---|
| LaunchInput.Coerce | src/bonk_mcp/tools/token_launcher.py:117-119 | An absent or falsy amount becomes zero and a given one keeps its value; the amount is positive exactly when a positive value was given |
| TokenLauncher.MetadataRequestOf | src/bonk_mcp/tools/token_launcher.py:161-170 | The metadata upload receives the four required fields as given and each social link as given, or as an empty text when it was absent |
| TokenLauncher.BuyStatusOf | src/bonk_mcp/tools/token_launcher.py:236-253 | A buy counts as succeeded exactly when its transaction is confirmed, and then it reports the requested amount; it has failed with a message exactly when building or sending it raised |
| TokenLauncher.Decide | src/bonk_mcp/tools/token_launcher.py:108-253 | The call fails exactly when the token is not created. Missing fields give the missing-parameters failure with no collaborator consulted. The no-keypair failure happens exactly when the fields are present and no keypair is set. No collaborator is consulted exactly in those two cases. The buy is attempted exactly when creation is confirmed and the amount is positive, and a launch report has a buy section exactly when it was attempted |
| TokenLauncher.Execute | src/bonk_mcp/tools/token_launcher.py:108-261 | The tool always returns exactly one text item. The item is an error text exactly when the token was not created, so a failed buy never makes it one |
| TokenLauncher.ToolDefinition | src/bonk_mcp/tools/token_launcher.py:70-106 | The registered tool has its name and description. It declares nine properties: every text key as a string, and the two amounts as numbers with minimum zero. Its required keys are name, symbol, description and image_url |
| LaunchInput.MissingRequired | src/bonk_mcp/tools/token_launcher.py:121-122 | A call is missing parameters exactly when one of the four required keys (name, symbol, description, image_url) holds no truthy text |
| Report.ErrorDetail | src/bonk_mcp/tools/token_launcher.py:127-210 | The wording of each failure after "Error". A decode, metadata or creation exception's message follows its step's fixed lead unchanged, and the empty-URI error is the metadata lead followed by the image-URL hint |
| Report.ErrorText | src/bonk_mcp/tools/token_launcher.py:121-212 | Every early-return text starts with "Error" |
| Report.CreationLines | src/bonk_mcp/tools/token_launcher.py:216-225 | A launch report has exactly eight creation lines. The first is the success header with the name, lines two and seven are blank, and the others carry, in order, the mint, pool state, URI, image and funding-account labels |
| Report.CreationLinesReadBack | src/bonk_mcp/tools/token_launcher.py:216-225 | Each detail can be read back from its line: the name and the parenthesised symbol from the header, and the mint, pool state, URI, image and payer from the text after their labels |
| Report.ReportLines | src/bonk_mcp/tools/token_launcher.py:216-253 | The report lines start with the eight creation lines. Without a buy there are no more; with one there are exactly two more, a blank line and the status line |
| Report.StatusLine | src/bonk_mcp/tools/token_launcher.py:239-253 | The status line is the success line exactly for a confirmed buy, and then names the amount. Otherwise it starts with the buy-failed words: followed by a full stop for an unconfirmed buy, and by a colon and the exception message when one was raised |
| Report.StatusLineIdentifiesStatus | src/bonk_mcp/tools/token_launcher.py:239-253 | Equal status lines come from equal statuses, except for two amounts that print alike. In particular the plain failure line never equals an exception line |
| Report.Render | src/bonk_mcp/tools/token_launcher.py:255-261 | A report renders as one item. A failure renders as its error text, and a launch renders as a text that is not an error text |
| Report.LaunchTextReadsBack | src/bonk_mcp/tools/token_launcher.py:259 | A launch text splits back at newlines into exactly its report lines when no line holds a newline |
| Text.Join | src/bonk_mcp/tools/token_launcher.py:259 | Joining no lines gives the empty text, and a join starts with its first line |
| Text.SplitJoin | src/bonk_mcp/tools/token_launcher.py:259 | Splitting a newline join of newline-free lines gives back the lines |
| Text.JoinSplit | src/bonk_mcp/tools/token_launcher.py:259 | Joining the pieces of a split gives back the text |
| Text.JoinAppendTwo | src/bonk_mcp/tools/token_launcher.py:240-259 | Appending two lines before the join appends two newlines and the two lines to the joined text |
| LauncherProperties.TraceFollowsPipeline | src/bonk_mcp/tools/token_launcher.py:145-237 | The collaborators are consulted in pipeline order: decode, mint, metadata, creation, derivation, buy. None is skipped or repeated |
| LauncherProperties.FailureStopsAtFailingStep | src/bonk_mcp/tools/token_launcher.py:122-212 | A failed call's last collaborator call belongs to the step that failed, and no call follows it. The two validation failures consult nothing. Address derivation and the buy never happen after a failure |
| LauncherProperties.RaisedMessagesAreReported | src/bonk_mcp/tools/token_launcher.py:145-212 | Each step's failure is reported as that step's error. A decode, metadata or creation exception carries its own message. An empty URI and an unconfirmed creation each have their own failure |
| LauncherProperties.LaunchReportContents | src/bonk_mcp/tools/token_launcher.py:186-237 | After a confirmed creation, the report holds the given name, symbol, image and URI and the payer, mint and pool state. The trace is decode, mint, metadata, creation (with the payer, mint, name, symbol and URI) and derivation. When the amount is positive, it is followed by a buy with the coerced amounts |
| LauncherProperties.FailureIgnoresAmounts | src/bonk_mcp/tools/token_launcher.py:118-212 | When the token is not created, the amounts change nothing: the same report and the same trace |
| LauncherProperties.MinimumOutOnlyReachesBuy | src/bonk_mcp/tools/token_launcher.py:228-235 | The slippage bound changes only the buy call's minimum output. The report and every earlier call stay the same |
| LauncherProperties.SocialLinksOnlyReachMetadata | src/bonk_mcp/tools/token_launcher.py:113-170 | The social links change neither the report nor the number of steps taken, and every call except the metadata upload stays the same |
| LauncherProperties.LaunchTextLines | src/bonk_mcp/tools/token_launcher.py:214-261 | A launched token's text reads back as the eight creation lines. When the amount is positive, they are followed by a blank line and the buy status line |
| LauncherProperties.BuyOnlyAppends | src/bonk_mcp/tools/token_launcher.py:227-253 | The text with a buy is the text without one followed by a blank line and the status line; the creation lines are never altered |
| LauncherProperties.ErrorTextIdentifiesFailure | src/bonk_mcp/tools/token_launcher.py:121-212 | Distinct failures have distinct error texts, with one exception: a metadata exception whose message is exactly the empty-URI hint reads like the empty-URI error |
| LauncherProperties.ValidationTextsIdentifyTheirCheck | src/bonk_mcp/tools/token_launcher.py:121-143 | The response is the missing-parameters text exactly when a required field is falsy. It is the no-keypair text exactly when the fields are present and no keypair is configured |
| LauncherProperties.RequiredFieldsMatchSchema | src/bonk_mcp/tools/token_launcher.py:105-122 | Validation rejects a call exactly when some key the schema lists as required holds no truthy text |

## Left out

- The collaborators (`prepare_ipfs`, `create_token`, `create_buy_tx`, `send_and_confirm_transaction`, `derive_pdas`) are network code from modules that are not part of this model. Their answers are inputs, and building or confirming a transaction is one outcome per step.
- base58 decoding and `Keypair.from_bytes` are foreign cryptography. They are an input outcome: the payer's printed public key, or an exception message.
- Fresh mint generation (`Keypair()`) is randomness. The mint's printed public key is an input. That each call uses a new mint is not modelled.
- The float rules are not modelled: `float()` parsing, Python's printing of floats, and the `ValueError` a malformed amount raises before validation. An amount is a real plus the text Python would print for it.
- An exception from `derive_pdas`, or a missing `'pool_state'` key, would escape the tool. The model assumes the lookup succeeds.
- async/await, the MCP `TextContent` and `Tool` classes, and the module-level instance are not modelled.
- The per-property description strings of the input schema are not modelled.
- Non-string JSON values in the text fields are not modelled; a text field is absent or a string. An explicit `null` social link is sent to the upload as `None` by the code, but the model sends an empty text.
- A `None` metadata URI is modelled as the empty URI, which the code treats the same way.
