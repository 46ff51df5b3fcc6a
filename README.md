# Donations core of the UniSoul Telegram bot, in Dafny

This project models the two pieces of logic in the bot's donation feature, and proves what they promise.

1. **The donation catalog and the donate conversation** (`DonateConversation`).
   - Three query helpers read the `donations` table. `getDonations` returns the active rows, narrowed by a confession and a branch. `getDonationById` returns one active row. `getDonationsByPurpose` returns the active rows with one purpose. The lists are ordered by `order`.
   - A two-step conversation first prompts for an amount. It then reads the reply with PHP's `(int)` cast. An amount below 1 gets the reply `donate.invalid`, and the conversation asks again. An amount n ≥ 1 gets one Telegram Stars invoice for n, and the conversation ends.
2. **The 32-bit id fix-up** (`NutgramServiceProvider`). It runs after every Bot API request. On a platform whose PHP integers are 32 bits wide, it walks the decoded `result` of the response. Each entry keyed `id` that holds a negative integer becomes the decimal string of that value plus 2^32. The code assumes such an id wrapped from 32 bits, but it rewrites every negative integer under `id`, including an id that was negative in the response itself, such as a group chat's id.

Files:

- `wrappers.dfy` (module `Wrappers`): the `Option` datatype, for null values, missing rows and missing keys.
- `php.dfy` (module `Php`): PHP's `(int)` cast of a possibly absent string, and its `(string)` cast of an integer. One lemma proves that `(int)` reads back any integer that `(string)` writes.
- `donation.dfy` (module `Donations`): the `Donation` record. Its fields are the fillable columns and casts of the model.
- `catalog.dfy` (module `Catalog`): the query helpers are functions over the table, a `seq<Donation>` in storage order. Each `where` call is `Where`, and `orderBy('order')` is `OrderByOrder`.
- `conversation.dfy` (module `Conversation`):
  - Pure functions give what each handler does: the next step and the list of effects (messages, invoices, usage counters).
  - The class `DonateConversation` has a `step` field and a log of effects sent. Its methods `Start` and `GetAmount` update both, and they are proved to match the pure functions.
- `overflow.dfy` (module `Overflow`):
  - A decoded JSON value is the datatype `Json`. An array or object is a node with key/value entries.
  - `FixIntegerOverflow` is an imperative method. It loops over a node's entries, overwrites each entry it fixes and calls itself on nested nodes. It is proved equal to the pure function `Fix`, and the properties are proved about `Fix`.
  - `AfterApiRequest` is the hook that applies the fix to `$json->result`.
  - The 32-bit platform check `PHP_INT_SIZE === 4` becomes the parameter `is32Bit`.

The model follows the code on three points:

- `if ($confessionId)` and `if ($branchId)` (app/Telegram/Conversations/DonateConversation.php:20, :24, :48) test the argument with PHP truthiness, so a filter argument of `0` applies no filter, the same as null.
- `orderBy('order')` (app/Telegram/Conversations/DonateConversation.php:28, :52) does not fix the order of rows with equal `order`: SQL `ORDER BY` does not promise a stable order.
- `$this->end()` (app/Telegram/Conversations/DonateConversation.php:92) ends the conversation; the step after it is called `Ended` here.

## Model

| member | source | states |
|---|---|---|
| `Catalog.Where` | app/Telegram/Conversations/DonateConversation.php:18 | a `where` keeps exactly the rows meeting the condition, each as often as it occurs in the table |
| `Catalog.Insert` | app/Telegram/Conversations/DonateConversation.php:28 | inserting a row into a list sorted by `order` keeps it sorted, and the result holds the same rows plus the new one |
| `Catalog.OrderByOrder` | app/Telegram/Conversations/DonateConversation.php:28 | `orderBy('order')` returns a permutation of its input that does not decrease in `order` |
| `Catalog.GetDonations` | app/Telegram/Conversations/DonateConversation.php:16-29 | the result does not decrease in `order`. Each row appears exactly as often as in the table if it is active and matches a truthy confession and a truthy branch, and not at all otherwise |
| `Catalog.GetDonationsMembers` | app/Telegram/Conversations/DonateConversation.php:18-28 | a row is returned if and only if it is in the table and passes the filters. Every returned row is active and has the requested confession and branch |
| `Catalog.FalsyFilterIgnored` | app/Telegram/Conversations/DonateConversation.php:20-26 | a null or 0 confession or branch applies no filter, so `getDonations(0, 0)` equals `getDonations()` |
| `Catalog.Find` | app/Telegram/Conversations/DonateConversation.php:36 | `find` returns a row of the query with that id, or nothing exactly when no row has that id |
| `Catalog.GetDonationById` | app/Telegram/Conversations/DonateConversation.php:34-37 | the result is an active table row with that id. It is null exactly when no active row has that id |
| `Catalog.GetDonationByIdOfRow` | app/Telegram/Conversations/DonateConversation.php:34-37 | when ids are unique, looking up an existing row gives that row if it is active, and null if it is inactive |
| `Catalog.GetDonationsByPurpose` | app/Telegram/Conversations/DonateConversation.php:42-53 | the result does not decrease in `order`. It holds exactly the active rows with exactly that purpose and, when the confession is truthy, that confession, each as often as in the table |
| `Catalog.WhereSorted` | app/Telegram/Conversations/DonateConversation.php:44-52 | narrowing a query that is already sorted by `order` keeps it sorted |
| `Catalog.ByPurposeIsFilteredListing` | app/Telegram/Conversations/DonateConversation.php:42-53 | `getDonationsByPurpose(p, c)` holds the same rows as `getDonations(c)` narrowed to purpose `p`, and that narrowed list is still sorted by `order` |
| `Catalog.UnknownPurposeIsEmpty` | app/Telegram/Conversations/DonateConversation.php:42-53 | a purpose that no listed row has gives an empty sequence, not an error |
| `Catalog.ListingAllRows` | app/Telegram/Conversations/DonateConversation.php:18-28 | when every row is active and in the requested confession, `getDonations` only sorts the table |
| `Catalog.ListingOrdersRows` | app/Telegram/Conversations/DonateConversation.php:16-29 | three active rows of one confession, stored with `order` 3, 1, 2, are listed as the rows with `order` 1, 2, 3 |
| `Php.StringToInt` | app/Telegram/Conversations/DonateConversation.php:71 | `(int)` of a string: after leading whitespace and an optional sign, it gives 0 when no digit follows (blank text, a word, a lone or doubled sign such as `"- 5"`), and it is negative only after a leading `-`. `Php.StringToIntOfIntToString`, `Conversation.RejectedReplies` and `Conversation.AcceptedReplies` state what it reads |
| `Php.LeadingSpaceIgnored` | app/Telegram/Conversations/DonateConversation.php:71 | any run of whitespace in front of a string leaves what `(int)` reads unchanged |
| `Php.ZeroPrefixIgnored` | app/Telegram/Conversations/DonateConversation.php:71 | a `0` in front of a string that is empty or starts with a digit leaves what `(int)` reads unchanged |
| `Php.LeadingZeroIgnored` | app/Telegram/Conversations/DonateConversation.php:71 | a `0` in front of a digit string leaves its decimal value unchanged |
| `Php.PlusSignIgnored` | app/Telegram/Conversations/DonateConversation.php:71 | a `+` in front of a string that is empty or starts with a digit leaves what `(int)` reads unchanged |
| `Php.CastToInt` | app/Telegram/Conversations/DonateConversation.php:71 | `(int) $bot->message()?->text`: a missing text reads as 0 (`Conversation.RejectedReplies`), and a text reads as `StringToInt` does (`Php.StringToIntOfIntToString`, `Conversation.AcceptedReplies`) |
| `Php.IntToString` | app/Telegram/Conversations/DonateConversation.php:89 | `(string)` of an integer is a non-empty digit string, after a `-` exactly when the integer is negative. `Php.StringToIntOfIntToString` states that `(int)` reads it back |
| `Php.StringToIntOfIntToString` | app/Telegram/Conversations/DonateConversation.php:71 | `(int)` reads back any integer from its `(string)` form, also when text that does not start with a digit follows it |
| `Conversation.StartOutcome` | app/Telegram/Conversations/DonateConversation.php:55-66 | what `start` does: one `donate.main` message, no invoice, next step `getAmount` (stated by `Conversation.StartPrompts`) |
| `Conversation.DonationInvoice` | app/Telegram/Conversations/DonateConversation.php:83-90 | the invoice for n stars: payload `donation`, empty provider token, currency `XTR`, one price of n whose label reads back as n (stated by `Conversation.ValidAmountInvoices`) |
| `Conversation.AmountOutcome` | app/Telegram/Conversations/DonateConversation.php:68-95 | what `getAmount` does: below 1, one `donate.invalid` message and the same step again; otherwise one invoice and the end (stated by `Conversation.InvalidAmountRetries`, `Conversation.ValidAmountInvoices` and `Conversation.TypedAmountIsInvoiced`) |
| `Conversation.DonateConversation.Start` | app/Telegram/Conversations/DonateConversation.php:55-66 | `start` appends its prompt and its usage counter to the log, in that order, and sets the next step to `getAmount` |
| `Conversation.DonateConversation.GetAmount` | app/Telegram/Conversations/DonateConversation.php:68-95 | `getAmount` appends exactly the effects of `AmountOutcome` to the log and sets the step it names |
| `Conversation.StartPrompts` | app/Telegram/Conversations/DonateConversation.php:55-66 | `start` sends exactly one message, `donate.main`, and no invoice, and moves on to `getAmount` |
| `Conversation.InvalidAmountRetries` | app/Telegram/Conversations/DonateConversation.php:71-80 | when the reply reads as an amount below 1, exactly one `donate.invalid` message is sent, no invoice is sent, and the step stays `getAmount` |
| `Conversation.ValidAmountInvoices` | app/Telegram/Conversations/DonateConversation.php:83-92 | an amount n ≥ 1 sends no message and exactly one invoice, then the conversation ends. The invoice has payload `donation`, an empty provider token, currency `XTR`, and one price of n labelled `"n XTR"`. The label reads back as n |
| `Conversation.TypedAmountIsInvoiced` | app/Telegram/Conversations/DonateConversation.php:71-92 | a reply that is the decimal string of n ≥ 1 gets exactly one invoice, for n stars, and ends the conversation |
| `Conversation.RejectedReplies` | app/Telegram/Conversations/DonateConversation.php:71-73 | an absent text, `""`, `"abc"`, `"0"` and `"- 5"` read as 0, and `"-5"` reads as -5, so all of them are rejected |
| `Conversation.AcceptedReplies` | app/Telegram/Conversations/DonateConversation.php:71-73 | `"25"` reads as 25, and `" 12 stars"` reads as 12 |
| `Overflow.FixLeaf` | app/Providers/NutgramServiceProvider.php:62-69 | a scalar entry changes if and only if it is a wrapped id (key `id`, negative integer, 32-bit platform), and then it becomes a string |
| `Overflow.Fix` | app/Providers/NutgramServiceProvider.php:56-73 | the fix-up keeps a node a node of the same kind with as many entries, and leaves a scalar at the top as it is. `Overflow.FixAt`, `Overflow.FixKeepsShape` and `Overflow.FixIdempotent` state the rest |
| `Overflow.FixIntegerOverflow` | app/Providers/NutgramServiceProvider.php:56-73 | the in-place walk over the entries, recursing into nested arrays and objects, gives exactly `Fix` of its input |
| `Overflow.FindKey` | app/Providers/NutgramServiceProvider.php:18 | the lookup behind `isset($json->result)` finds a position holding the key, or nothing exactly when no entry has that key |
| `Overflow.HasResult` | app/Providers/NutgramServiceProvider.php:18 | `is_object($json) && isset($json->result)` holds if and only if the response is an object whose first `result` entry is not null |
| `Overflow.AfterApiRequest` | app/Providers/NutgramServiceProvider.php:17-23 | the hook always returns the response. It changes only the `result` entry, and only when the response is an object with a non-null `result`. That entry becomes `Fix` of its old value. On a 64-bit platform nothing changes |
| `Overflow.FixOffIsIdentity` | app/Providers/NutgramServiceProvider.php:62 | with the 32-bit flag off, the fix-up leaves any tree unchanged |
| `Overflow.FixKeepsShape` | app/Providers/NutgramServiceProvider.php:58-61 | at every depth, every node keeps its kind (array or object), its keys in order and its number of children |
| `Overflow.FixIdempotent` | app/Providers/NutgramServiceProvider.php:62-68 | a second pass changes nothing |
| `Overflow.FixAt` | app/Providers/NutgramServiceProvider.php:58-69 | at any path into the tree, the fixed entry has the same key. A nested node is fixed in turn, and a scalar goes through the id rewrite |
| `Overflow.OnlyWrappedIdsChange` | app/Providers/NutgramServiceProvider.php:62 | at any depth, a scalar entry is untouched unless its key is `id`, its value is a negative integer and the platform is 32-bit |
| `Overflow.WrappedIdBecomesString` | app/Providers/NutgramServiceProvider.php:65-68 | at any depth, in an array or an object, a negative integer v under `id` becomes the decimal string of v + 4294967296 |
| `Overflow.WrappedIdRange` | app/Providers/NutgramServiceProvider.php:66 | for v in [-2^31, -1], the replacement string is made only of digits and reads as a number in [2^31, 2^32 - 1] |

## Left out

- The webhook route: it is HTTP input/output and logging only, and the bot run it would trigger is commented out.
- The debug middleware that logs raw updates, and the `about` message template: neither holds logic.
- `configureLenientHydrator`: it swaps the SDK's hydrator through reflection, which is outside the bot's own logic.
- The donation seeder and factory: they fill the database with fixed or random rows. `Catalog.ListingOrdersRows` plays out a seeder-like three-row scenario instead.
- The relations `confession()` and `branch()`, the timestamp columns and the table indexes: no query here follows a relation, and indexes do not change results.
- Database access: a query is a function of the table, given as a sequence of rows, and reads nothing else.
- Translation and messaging: `sendMessage` and `sendInvoice` are recorded as effects. A message names its `message()` template key, and an invoice names its `trans()` translation keys. Rendered text and delivery are not modelled.
- `where('purpose', $purpose)`: modelled as exact string equality. A database collation that compares case- or accent-insensitively is not modelled.
- `stats()`: recorded as an effect with its event name and value.
- Per-user session storage and update dispatch belong to the bot SDK. The model records the step the conversation asks for, but it does not model the SDK running that step on the next update.
- `Php.StringToInt`: models optional leading whitespace, an optional sign and the leading digits. It does not model decimal or exponent forms such as `"1e3"`, or saturation at the platform's integer limit.
- `Overflow.FixLeaf`: adds 2^32 with exact integer arithmetic. On a 32-bit platform PHP actually computes this sum as a float, and the float-to-string formatting is not modelled.
- A decoded JSON node may hold the same key twice in the model, which no decoded PHP array or object can, since `json_decode` keeps the last duplicate. `Overflow.HasResult` and `Overflow.AfterApiRequest` pick the first `result` entry, which is the only one in a real response.
- An integer too large for the platform: `json_decode` turns it into a float, which the fix-up leaves alone (`Overflow.OnlyWrappedIdsChange`). The model does not decode JSON text itself.
- Ids and integer columns are unbounded integers. The width of the database columns is not modelled.
- `Catalog.OrderByOrder`: keeps rows with equal `order` in table order. That is one of the orders SQL may return, and no property here depends on it.
- `Catalog.ByPurposeIsFilteredListing`: equates the two results as multisets, both sorted, and not as sequences. SQL does not fix the order of rows with equal `order`.
- `Catalog.GetDonationByIdOfRow`: assumes ids are unique in the table, as a primary key makes them. Without that, the lookup returns the first active row with the id.
- The minimum and maximum amount and the currency of a donation row are never consulted by the conversation, as in the code. The invoice is always in `XTR`, and any amount of at least 1 is accepted.
