/** The keyword arguments of the launch-with-buy tool and the way the
    launcher reads them: Python truthiness for the required text fields,
    empty-text defaults for the social links, and `float(x or 0)` for the
    two amounts.
 */
module LaunchInput {
  import opened Wrappers

  /** A numeric argument as the client sent it: not sent at all, sent as a
      falsy value (`None`, `""`, `False`), or a value `float` accepts.
      `shown` is how Python prints the resulting float (`str(float(x))`). */
  datatype RawAmount = Absent | Falsy | Given(value: real, shown: string)

  /** A coerced amount: its value and its printed form. */
  datatype Amount = Amount(value: real, shown: string)

  /** `float(0)`, the amount an absent or falsy argument becomes. */
  const Zero := Amount(0.0, "0.0")

  /** The `arguments` dictionary of one call. `None` stands for a key the
      client left out (or sent as `null`). */
  datatype Arguments = Arguments(
    name: Option<string>,
    symbol: Option<string>,
    description: Option<string>,
    twitter: Option<string>,
    telegram: Option<string>,
    website: Option<string>,
    imageUrl: Option<string>,
    initialBuyAmount: RawAmount,
    minimumTokenOut: RawAmount)

  /** Python truthiness of an optional text: present and non-empty.
      A text of blanks is truthy. */
  predicate Truthy(v: Option<string>)
  {
    v.Some? && v.value != ""
  }

  /** `float(arguments.get(key, 0) or 0)`: absent and falsy arguments become
      zero, anything else keeps its value. */
  function Coerce(raw: RawAmount): (a: Amount)
    ensures a.value > 0.0 <==> raw.Given? && raw.value > 0.0
    ensures raw.Given? ==> a.value == raw.value && a.shown == raw.shown
    ensures !raw.Given? ==> a == Zero
  {
    match raw
    case Given(v, s) => Amount(v, s)
    case _ => Zero
  }

  /** The keys of the arguments dictionary. */
  datatype Key =
    | NameKey | SymbolKey | DescriptionKey | TwitterKey | TelegramKey | WebsiteKey | ImageUrlKey
    | InitialBuyAmountKey | MinimumTokenOutKey

  /** The keys validation insists on, in the order the guard tests them. */
  const RequiredKeys := [NameKey, SymbolKey, DescriptionKey, ImageUrlKey]

  /** The validation guard: one of the four required fields is falsy.
      Exactly the required keys decide it. */
  function MissingRequired(args: Arguments): (missing: bool)
    ensures missing <==> exists k :: k in RequiredKeys && !Truthy(TextField(args, k))
  {
    if !Truthy(args.name) then
      assert TextField(args, NameKey) == args.name;
      true
    else if !Truthy(args.symbol) then
      assert TextField(args, SymbolKey) == args.symbol;
      true
    else if !Truthy(args.description) then
      assert TextField(args, DescriptionKey) == args.description;
      true
    else if !Truthy(args.imageUrl) then
      assert TextField(args, ImageUrlKey) == args.imageUrl;
      true
    else
      false
  }

  /** The two keys read as numbers; every other key holds a text. */
  predicate IsAmountKey(k: Key)
  {
    k == InitialBuyAmountKey || k == MinimumTokenOutKey
  }

  /** The spelling of a key in the arguments dictionary. */
  function KeyName(k: Key): string
  {
    match k
    case NameKey => "name"
    case SymbolKey => "symbol"
    case DescriptionKey => "description"
    case TwitterKey => "twitter"
    case TelegramKey => "telegram"
    case WebsiteKey => "website"
    case ImageUrlKey => "image_url"
    case InitialBuyAmountKey => "initial_buy_amount"
    case MinimumTokenOutKey => "minimum_token_out"
  }

  /** The text argument stored under a key; `None` for the two amounts. */
  function TextField(args: Arguments, k: Key): Option<string>
  {
    match k
    case NameKey => args.name
    case SymbolKey => args.symbol
    case DescriptionKey => args.description
    case TwitterKey => args.twitter
    case TelegramKey => args.telegram
    case WebsiteKey => args.website
    case ImageUrlKey => args.imageUrl
    case _ => None
  }
}
