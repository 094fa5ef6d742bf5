# CoffeeMoll order core, modelled in Dafny

CoffeeMoll is a coffee-shop storefront that runs as a Telegram web app
(`script.js`) with a bot behind it (`bot.py`).

The customer builds a cart and fills in the checkout form. The web app then
sends the order to the bot. The bot redeems the promo code against two
Google worksheets:

- `PromoHistory`: one row per redemption, holding user, code and time;
- `Promocodes`: the remaining uses of each code.

The bot then posts the order to an admin chat. There the admin accepts or
rejects it, sets a preparation time, and finally marks it ready.

This project models the following, and proves properties of each:

- the promo ledger of `process_promo_code`;
- the promo handling of the order handler;
- the admin chat's message and keyboard transitions;
- these helpers of the web app:
  - the cart operations and their sums;
  - the favourites toggle;
  - `parsePrice`;
  - the favourites-first menu;
  - the category ordering of the navigation;
  - the phone mask;
  - the checks and payload of `submitOrder`.

Where the source updates state in place, the model does too. Each such
operation is a class method proved against a specification function:

- the two Google worksheets: `Promo.PromoSheets`;
- the `cart` array: `Cart.ShoppingCart`;
- the `favorites` array: `Favorites.FavoriteList`.

Loops in the source are loops in the model:

- the history scan;
- the `find` and `indexOf` searches;
- the `reduce` sums;
- the `forEach` of `getDisplayData`;
- the piecewise building of the phone mask.

The rest is functions and lemmas.

The system's design description asks for more than the code does. The model
follows the code:

- Redemption is not atomic.
- A failure of `append_row` leaves the limit decremented with no history row.
- The user's history is checked before the code is looked up.
- There is no cancellation. Rejecting an order gives neither the use nor the
  history row back.
- There is no loyalty ledger and no review flow.
- A typed custom time is accepted as it is, without validation.
- Handlers are tried in the order they are registered. A typed `/start`
  therefore always goes to the welcome handler, even while a custom time is
  awaited, and the wait goes on.

The admin message texts are modelled as Telegram returns them in
`message.text`: the plain rendering, with the HTML tags dropped. When the
bot edits a message it writes `<b>ОТКЛОНЕН</b>`, so the model's text reads
`ОТКЛОНЕН`. The texts sent to customers keep their markup.

Modules:

- `Text`: string helpers, each modelling one Python or JavaScript built-in:
  - `in`;
  - `split(p)[0]`;
  - `split(c)`;
  - `split(maxsplit=1)[0]`;
  - `upper`;
  - `trim` and `strip`;
  - `replace(/\D/g, '')`.
- `Wrappers`: `Option` and `Result`.
- `Promo`: the promo ledger.
- `Intake`: the promo part of the order handler, plus the admin's "to a set
  time" flag.
- `Admin`: the admin chat.
- `Cart`: the cart.
- `Favorites`: the favourites list.
- `Menu`: prices, the favourites-first menu and the navigation order.
- `Checkout`: the phone mask and `submitOrder`.

## Model

| member | source | states |
|---|---|---|
| Promo.PromoSheets.ProcessPromoCode | bot.py:48-108 | The status returned and the new worksheets are what one call of the redemption rule gives: an empty code, a store failure, the user's history (scanned row by row), the code's row, its limit, then the decrement and the append, in the source's order. |
| Promo.PromoSheets.constructor | bot.py:70-71 | The worksheets start as given. |
| Promo.EmptyCodeNotFound | bot.py:56 | An empty code gives `NOT_FOUND` and leaves both sheets unchanged. |
| Promo.UsedComesFirst | bot.py:79-81 | A history row with the same user and the same code up to letter case gives `USED` with nothing written, even when the code is missing from the table. |
| Promo.RefusalsWriteNothing | bot.py:84-104 | `NOT_FOUND`, `USED` and `LIMIT` leave both sheets as they were. So does `ERROR`, unless the failure came at the append. |
| Promo.LimitIff | bot.py:89-104 | `LIMIT` is returned exactly for a known, readable code that this user has not used and whose cell is empty or at most 0. |
| Promo.OkIff | bot.py:90-102 | `OK` exactly when every check passes and no write fails. Then the code's limit is one less, exactly one row `(user, code, time)` is appended, and the other codes are untouched. |
| Promo.LimitStaysNonNegative | bot.py:89-95 | A limit is decremented only when positive, so no redemption makes any limit negative. |
| Promo.NoDoubleRedemption | bot.py:79-81 | After `OK`, the same user with the same code in any letter case gets `USED`, and nothing is decremented again. |
| Promo.RedeemKeepsOncePerUser | bot.py:79-99 | If no two history rows record one user and one code, a redemption keeps it that way. |
| Promo.RowsForAppend | bot.py:99 | Counting the rows for a code is additive over concatenated histories. |
| Promo.RedeemAccounts | bot.py:92-99 | Unless the append fails, one call only appends to the history. For every code, its limit plus the rows the call added for it equals the limit before. |
| Promo.UsesAreAccountedFor | bot.py:92-99 | Over any sequence of calls without an append failure, each code's remaining uses fall by exactly the number of history rows added for it. |
| Promo.AppendFailureLosesAUse | bot.py:92-99 | A failure at the append returns `ERROR` with the limit already decremented and no history row: a use is lost. |
| Promo.LastUseScenario | bot.py:48-108 | With one use left, the first user gets `OK`. The same user retrying in lower case gets `USED`. A second user gets `LIMIT`. |
| Intake.HandleOrderPromo | bot.py:182-216 | The handler consults the ledger only for a non-empty code with a positive rate, then settles rate, warning and admin note by the status. |
| Intake.NoAttemptNoChange | bot.py:182 | Without a code or without a positive rate, the ledger is untouched and no warning is given. |
| Intake.DiscountKeptIff | bot.py:185-216 | The rate is kept exactly when the status is `OK`. Any other status sets it to 0 and produces a warning. |
| Intake.RateNeverGrows | bot.py:182-206 | The rate the order keeps lies between 0 and the rate sent. |
| Intake.RepeatOrderWarned | bot.py:79-81 | A customer's second order with a code they already redeemed gets the "already used" warning and no discount. |
| Intake.WarningNamesCode | bot.py:208-216 | Every refusal warning names the code in bold. |
| Intake.ClientToldOfRefusal | bot.py:259-262 | The reply to the customer names the code whenever the promo was refused. |
| Intake.TimeFlagAsWrittenMissesTimedOrder | bot.py:237-239 | The test as written does not flag an order whose customer chose a time and wrote no comment. |
| Intake.TimedCommentUnflagged | bot.py:237-239 | The comment the web app writes for a chosen time of up to five characters, with no text typed, does not contain "Ко времени". |
| Intake.NoKoVremeni | bot.py:238 | A short text whose first two characters are not "К" does not contain "Ко времени". |
| Intake.TimeFlagIff | bot.py:237-239 | With the corrected test, a sent order is flagged exactly when the customer chose a time. |
| Admin.FieldsOfCallbackData | bot.py:126-152 | Callback data `prefix_action_user` splits on `_` into its three fields when none of them holds `_`. |
| Admin.DataStartsWithPrefix | bot.py:271-353 | Callback data starts with its prefix and action, which is what the dispatcher routes on. |
| Admin.ButtonsCarryUser | bot.py:126-152 | Every button's data has the customer in its third field and starts with its handler's prefix. |
| Admin.DecisionButtons | bot.py:126-131 | Both decision buttons carry the customer and start with `dec_`. |
| Admin.TimeButtons | bot.py:134-147 | All seven time buttons carry the customer and start with `time_`. |
| Admin.AcceptThenBack | bot.py:275-299 | "Accept" replaces the decision keyboard with the time keyboard, and "back" restores the message exactly. Nothing is sent. |
| Admin.RejectOutcome | bot.py:278-288 | "Reject" appends the rejection line, drops the keyboard and notifies the customer. |
| Admin.AcceptedMarkBorderless | bot.py:311 | The mark `"\n\n✅"` overlaps no shift of itself. |
| Admin.PresetNeverStacks | bot.py:308-316 | A preset time leaves the text before the first `"\n\n✅"` plus one accepted line. Choosing again replaces that line, so accepted lines never stack. |
| Admin.PresetOutcome | bot.py:308-321 | A preset time rewrites the text, attaches the ready keyboard and tells the customer the time in minutes. |
| Admin.StartWord | bot.py:156 | `/start` holds no white space and is its own trimmed text. |
| Admin.StartThenSpace | bot.py:156 | A text starting with `/start` followed by white space or nothing has `/start` as its first word. |
| Admin.StartCommandForms | bot.py:156 | `/start`, bare or with arguments, is matched by `CommandStart()`. |
| Admin.StartMentionsBot | bot.py:156 | `/start@name` with the bot's own username is matched by `CommandStart()`. |
| Admin.TimeIsNotCommand | bot.py:156-330 | A typed time starting with a digit is never a start command, so it reaches the custom-time handler. |
| Admin.PressCustom | bot.py:301-306 | Pressing "custom" opens the wait for that order and message, and sends the prompt. |
| Admin.TypedDuringWait | bot.py:156-350 | During a wait, a typed message that is not a start command is handled as the custom time. |
| Admin.CustomTimeFlow | bot.py:301-350 | "Custom" prompts and waits. The next typed message that is not a start command attaches the ready keyboard, confirms the time in both chats and ends the wait. |
| Admin.StartDuringWait | bot.py:156-324 | A start command typed during a wait only sends the welcome. The wait and the order message are unchanged, and the next typed time still completes the order. |
| Admin.TypedWhileIdle | bot.py:156-324 | Outside a wait, a typed message leaves the desk as it was. It gets the welcome exactly when it is a start command, and nothing otherwise. |
| Admin.ReadyWording | bot.py:352-375 | "Ready" drops the keyboard. It uses the courier wording exactly when the text mentions "Доставка", and a text without "ПРИНЯТ" gets the status appended. |
| Admin.ReadyDropsAcceptedLine | bot.py:357-368 | On an accepted order, "ready" keeps the trimmed text before the first ✅, which holds no ✅. It then appends the courier status exactly when the text mentions "Доставка", and the pickup status otherwise. |
| Cart.ShoppingCart.AddToCart | script.js:665-678 | The cart becomes the specification `Added` of the old cart, found by a search for the first line with the item's key. |
| Cart.ShoppingCart.IncQty | script.js:685-687 | Line `i` gets one more unit and its total is recomputed. |
| Cart.ShoppingCart.DecQty | script.js:693-699 | Line `i` loses one unit, or is spliced out when it held one. |
| Cart.ShoppingCart.RemoveFromCart | script.js:755 | Line `i` is spliced out; an index past the end changes nothing. |
| Cart.ShoppingCart.Sums | script.js:715-716 | The button's amount and count are the two `reduce` sums, computed by a loop. |
| Cart.ShoppingCart.constructor | script.js:26 | The cart starts empty. |
| Cart.FindLine | script.js:667 | `find` returns the first line whose name and options equal the item's, or none. |
| Cart.FindLineIsFirst | script.js:667 | A search that stops at the first match, or runs off the end, finds `FindLine`'s position. |
| Cart.AddedShape | script.js:669-677 | With a matching line, the length stays, that line's quantity rises by one with total price×qty, and the other lines are untouched. Otherwise one line of one unit at the item's price is appended. |
| Cart.AddedKeepsWellFormed | script.js:665-678 | `addToCart` keeps the cart invariant: every quantity ≥ 1, totals equal price×qty, no two lines with the same name and options. |
| Cart.IncrementedKeepsWellFormed | script.js:685-687 | `incQty` keeps the cart invariant. |
| Cart.RemovingKeepsOrder | script.js:698 | Splicing out one line keeps the other lines in their order. |
| Cart.RemovingKeepsWellFormed | script.js:698 | Splicing out one line keeps the cart invariant. |
| Cart.DecrementedKeepsWellFormed | script.js:693-699 | `decQty` keeps the cart invariant. |
| Cart.RemovedAtKeepsWellFormed | script.js:755 | `removeFromCart` keeps the cart invariant. |
| Cart.DecrementedRemovesIff | script.js:694-699 | `decQty` removes the line exactly when it held one unit. Otherwise the quantity drops by one. |
| Cart.DecUndoesInc | script.js:685-699 | `incQty(i)` then `decQty(i)` gives the cart back. |
| Cart.TotalAppend | script.js:715-716 | Both sums are additive over concatenated carts. |
| Cart.TotalOfOne | script.js:715-716 | A one-line cart sums to that line's `priceTotal \|\| price` and `qty \|\| 1`. |
| Cart.TotalUpdate | script.js:715-716 | Replacing one line changes each sum by that line's difference. |
| Cart.TotalRemove | script.js:715-716 | Removing one line takes its share out of each sum. |
| Cart.OrPriceIsProduct | script.js:715 | For a well-formed line, `priceTotal \|\| price` is price×qty, even when that is 0. |
| Cart.SumsOfWellFormed | script.js:715-716 | In a well-formed cart, the total is the sum of price×qty and the count is the sum of quantities, which is at least the number of lines. |
| Cart.UnitUp | script.js:686 | One unit more adds the line's price to its share of the total. |
| Cart.UnitDown | script.js:695 | One unit less takes the line's price off its share of the total. |
| Cart.UpSums | script.js:686-687 | One more unit of a line of at least one unit adds its price and one unit to the sums. |
| Cart.LineOf | script.js:665-699 | Every line of a well-formed cart holds at least one unit and costs price×qty. |
| Cart.AddedSums | script.js:665-678 | `addToCart` adds one to the count and one price to the total: the item's price for a new line, or the existing line's price when the key matched. |
| Cart.BumpSums | script.js:670-671 | Bumping an existing line adds its price and one unit. |
| Cart.IncrementedSums | script.js:685-687 | `incQty` adds the line's price and one unit to the sums. |
| Cart.LowerSums | script.js:694-696 | Lowering a quantity takes the line's price and one unit off the sums. |
| Cart.DropSums | script.js:697-698 | Splicing out a one-unit line takes its price and one unit off the sums. |
| Cart.DecrementedSums | script.js:693-699 | `decQty` takes the line's price and one unit off the sums in both branches. |
| Cart.RemovedSums | script.js:755 | `removeFromCart` takes the line's total and quantity off the sums. |
| Favorites.FavoriteList.ToggleFavorite | script.js:77-86 | The list becomes `Toggled` of the old list: the first copy of the id is spliced out, or the id is pushed, after an `indexOf` scan. |
| Favorites.FavoriteList.constructor | script.js:32 | The list starts as stored. |
| Favorites.IndexOf | script.js:80 | `indexOf` returns the first position of the id, or none. |
| Favorites.IndexOfIsFirst | script.js:80 | A scan that stops at the first match, or runs off the end, finds `IndexOf`'s position. |
| Favorites.ToggleFlips | script.js:80-82 | In a list without repeats, toggling flips whether the id is a favourite. |
| Favorites.ToggleKeepsOthers | script.js:80-82 | Toggling one id leaves the membership of every other id unchanged. |
| Favorites.ToggleKeepsNoDuplicates | script.js:80-82 | Toggling keeps the list free of repeats. |
| Favorites.ToggleTwiceNew | script.js:80-82 | Adding a new id and toggling it again restores the list exactly. |
| Favorites.ToggleTwiceOld | script.js:80-82 | Removing an id and toggling it again moves it to the end. |
| Menu.NatToString | script.js:142-146 | A number's decimal digits are one or more characters, all digits. |
| Menu.ParsePriceIsDigitValue | script.js:142-146 | A price is the decimal value of its digits in order, with no digits or an empty value giving 0. |
| Menu.DecimalOfNatToString | script.js:145 | `parseInt` of a number's decimal digits gives the number back. |
| Menu.ParsePriceRoundTrip | script.js:142-146 | A number written with digit-free text around it, such as "450 ₸", parses back to that number. |
| Menu.IdSetSnoc | script.js:214-220 | The ids of a menu with one more product are the old ids plus that product's id. |
| Menu.GetDisplayData | script.js:208-223 | The shown list, built by one pass over the menu, is the favourites block followed by the whole menu unchanged. |
| Menu.FavPartMembers | script.js:215-216 | Every product in the favourites block is a favourite, moved to the category "ИЗБРАННОЕ". |
| Menu.FavPartIds | script.js:215-218 | The ids in the favourites block are exactly the favourited ids on the menu. |
| Menu.FavPartDistinct | script.js:212-218 | No id occurs twice in the favourites block, so it has one product per favourited id on the menu. |
| Menu.DisplayLength | script.js:208-223 | The shown list has the menu size plus the number of distinct favourited ids present, and ends with the menu. |
| Menu.CategoryOrderUpper | script.js:392 | The upper-cased order has one entry for each category of `CATEGORY_ORDER`, in the same place. |
| Menu.IndexIn | script.js:394 | `indexOf` returns the first position, or -1 exactly when the category is absent. |
| Menu.RankRange | script.js:394-395 | A listed category ranks at its position, and every other category ranks 999. |
| Menu.DistinctIsSet | script.js:391 | `[...new Set(...)]` has no repeats and the same members as the list. |
| Menu.SortedTail | script.js:393-396 | The tail of a list sorted by rank is sorted, and its head ranks lowest. |
| Menu.InsertElements | script.js:393-396 | Inserting adds exactly the one element. |
| Menu.InsertSorted | script.js:393-396 | Inserting into a list sorted by rank keeps it sorted. |
| Menu.ConsSorted | script.js:393-396 | A category ranked no higher than every element of a sorted list can go in front of it. |
| Menu.SortBySorts | script.js:393-396 | The sort orders the categories by rank and is a permutation of its input. |
| Menu.WithKeyAppend | script.js:393-396 | Picking the elements of one rank is additive over concatenation. |
| Menu.WithKeyNone | script.js:393-396 | A list whose ranks all exceed `r` has no element of rank `r`. |
| Menu.WithKeyInsert | script.js:393-396 | Inserting into a sorted list puts the new element after all elements of the same rank. |
| Menu.SortByStable | script.js:393-396 | Categories of equal rank keep their order. In particular, the unknown categories (all of rank 999) stay in first-appearance order. |
| Menu.NavOrderShape | script.js:389-396 | The navigation lists each category of the shown products exactly once. They are ordered by rank, and the unknown ones are in first-appearance order. |
| Menu.NavKnownFirst | script.js:393-396 | Every category of `CATEGORY_ORDER` in the navigation comes before every category outside it. |
| Menu.PermutationKeepsDistinct | script.js:393 | Sorting a list without repeats leaves no repeats and the same members. |
| Menu.TwiceCountsTwice | script.js:393 | An element found at two positions occurs at least twice. |
| Menu.DistinctCountsOnce | script.js:391 | In a list without repeats, every element occurs at most once. |
| Checkout.National | script.js:887-897 | At most ten kept digits, all of them digits. |
| Checkout.Separator | script.js:900-903 | The mask's separators hold no digits. |
| Checkout.NationalDigits | script.js:887-897 | Stripping non-digits, dropping one leading 7 or 8 and keeping ten digits gives `National`. |
| Checkout.ApplyPhoneMask | script.js:885-905 | The field value built piece by piece with `substring` and `+=` is `PhoneMask` of the input. |
| Checkout.LayoutInGroups | script.js:899-903 | The grouping by substrings agrees with laying the digits out one by one as `(XXX) XXX-XX-XX`. |
| Checkout.AreaGrows | script.js:900 | One more digit within the area code extends the `(XXX` group. |
| Checkout.ExchangeGrows | script.js:901 | One more digit in positions 4-6 extends the `) XXX` group. |
| Checkout.FirstPairGrows | script.js:902 | One more digit in positions 7-8 extends the first `-XX` group. |
| Checkout.LastPairGrows | script.js:903 | One more digit in positions 9-10 extends the last `-XX` group. |
| Checkout.DigitsOfLayout | script.js:899-903 | The laid-out number has exactly the kept digits as its digits. |
| Checkout.DigitsAfterSeparator | script.js:900-903 | A separator followed by a digit adds only that digit. |
| Checkout.MaskShape | script.js:885-905 | Input with no digit clears the field. Otherwise the field starts with "+7 " and its digits are 7 followed by the kept digits. |
| Checkout.MaskIdempotent | script.js:885-905 | Masking a masked value changes nothing. |
| Checkout.SubmitAcceptsIff | script.js:806-814 | The order is sent exactly when a chosen time is present, name and phone are not blank, an address is present for delivery, and an invoice phone is present for Kaspi or Halyk. |
| Checkout.SubmitAcceptsTrimmed | script.js:794-814 | The same condition, on the trimmed fields. |
| Checkout.BlankIff | script.js:794-796 | A field is empty after `trim` exactly when it is all white space. |
| Checkout.MissingTimeFirst | script.js:806-808 | A missing chosen time is reported before any other field is checked. |
| Checkout.ClockInFront | script.js:809 | A comment built for a chosen time starts with "⏰ К ". |
| Checkout.HurryNotClock | script.js:810 | An "as soon as possible" comment does not start with "⏰ К ". |
| Checkout.TimedCommentMarked | script.js:803-810 | The comment starts with "⏰ К " exactly when a time was chosen. |
| Checkout.SubmittedComment | script.js:803-827 | A sent order carries the comment with the time request in front. |
| Checkout.SubmittedPayload | script.js:818-830 | A sent order is labelled "Доставка" exactly for delivery, and has an address only for delivery. Its comment starts with the clock exactly when a time was chosen, and its discount and code are the applied ones. |
| Checkout.DeliveryLabelIff | script.js:799 | The delivery label is "Доставка" exactly for the `delivery` choice. |
| Text.ContainsNeedsRoom | bot.py:238 | A text that contains `p` is at least as long as `p`. |
| Text.ContainsWithin | bot.py:259-262 | An occurrence inside a part is an occurrence in the whole. |
| Text.ContainsInSlice | bot.py:366-367 | An occurrence inside a slice is an occurrence in the whole. |
| Text.Before | bot.py:311 | `split(p)[0]` is a prefix of the text. |
| Text.BeforeIsFree | bot.py:311 | What comes before the first occurrence holds none. The occurrence follows it when there is one, and the text is kept whole when there is none. |
| Text.BeforeAppended | bot.py:311-315 | Cutting at the first occurrence of a self-non-overlapping mark recovers a text built as mark-free text followed by the mark. |
| Text.Digits | script.js:144 | The digits of a text are digits and no more than its length. |
| Text.DigitsAppend | script.js:144 | Stripping non-digits is additive over concatenation. |
| Text.DigitsSnoc | script.js:144 | One more character adds itself to the digits exactly when it is a digit. |
| Text.DigitsOfDigits | script.js:144 | A text of digits is its own digit string. |
| Text.DigitsOfNonDigits | script.js:144 | A text with no digit has no digits. |
| Text.Split | bot.py:273 | `split` always gives at least one field. |
| Text.SplitJoin | bot.py:273 | Splitting loses nothing, and no field holds the separator. |
| Text.SplitNoSeparator | bot.py:273 | A text without the separator is one field. |
| Text.SplitAfterField | bot.py:294-295 | A separator after a separator-free field starts the next field. |
| Text.UpperChar | bot.py:80 | Upper-casing shifts the Latin lower-case letters and leaves non-letters alone. |
| Text.WordPrefix | bot.py:156 | The word prefix is a prefix without white space, ended by white space or the end of the text. |
| Text.WordPrefixOf | bot.py:156 | A word followed by white space or nothing is its own word prefix. |
| Text.Upper | bot.py:80 | Upper-casing a text upper-cases each character and keeps the length. |
| Text.TrimStart | script.js:794 | Leading white space is removed, and nothing else. |
| Text.TrimEnd | script.js:794 | Trailing white space is removed, and nothing else. |
| Text.TrimKeepsOut | bot.py:367 | Trimming brings in no text that was not there. |
| Text.TrimEmpty | script.js:794-796 | A text is empty after trimming exactly when it is all white space. |

## Left out

- Google Sheets client, credentials and API exceptions: a `Fault` parameter chooses where a call fails. `StoreDown` covers a failure before any write, including `update_cell`; `AppendFails` covers a failure at `append_row`.
- The `find` of the promo table: `find` searches every column. The model looks the code up as a key of `Promocodes`, matched exactly; a code that also appears in another column is not modelled.
- The timestamp of a history row: `datetime.now()` is a parameter.
- Limit cells: the third column as a blank, a whole number or text `int()` rejects. A rejected cell gives `ERROR` with no change.
- Concurrency: calls are modelled one at a time. Two overlapping `process_promo_code` runs, each reading the other's old state, are not modelled.
- Floating-point discount arithmetic: not modelled. This covers the bot's `round(total / (1 - rate))` and `int(...)`, the restored total, and `Math.round(t * appliedDiscount)` in `calculateCheckoutTotal`. The " (-N ₸)" note is a parameter, and the total is printed text.
- Intake.HandleOrderPromo: covers only the promo part of the order handler. The rest of the admin message formatting is not modelled, except the "to a set time" flag. Not modelled: the item list, the option filter, the icons, the total, JSON parsing.
- Telegram transport: not modelled. This covers `callback.answer`, `message.delete`, failed sends that are swallowed, and "message is not modified" errors. Messages are values; sending is a list of outgoing texts.
- Non-text admin messages (`message.text` of `None`): not modelled.
- User and chat ids: strings throughout. Telegram's numeric ids contain no `_`, so the lemmas about callback data require that.
- Text.UpperChar: covers only the ASCII Latin letters a–z and the Russian Cyrillic letters а–я and ё. Python's `str.upper()` also upper-cases accented Latin letters (`é` to `É`), the non-Russian Cyrillic letters (`қ`, `ә`, `і` and others), Greek and other scripts, and `ß` to `SS`. None of this is modelled.
- The `/start` match (`Admin.IsStartCommand`) compares the mention to the bot's username through `Upper`, where aiogram lower-cases both. These agree because Telegram usernames are plain ASCII letters, digits and `_`. Commands in captions are not modelled, and the welcome's reply keyboard is not part of the outgoing text.
- Promo.PromoSheets.ProcessPromoCode: an unknown code gives `NOT_FOUND`, which assumes a gspread version before 5.0, where `find` raises `CellNotFound`. From 5.0 on, `find` returns `None`, `cell.row` raises, and the call returns `ERROR`. The order handler treats both results alike.
- Cart.ShoppingCart.IncQty and Cart.ShoppingCart.DecQty: require an index inside the cart. A stale index, where `cart[index].qty` raises a `TypeError`, is not modelled; every caller passes an index taken from the rendered cart.
- Checkout.SubmittedPayload: the payload's `cart` field and the `cart = []` that runs after `tg.sendData` are not modelled; `total` is covered by the floating-point line above.
- DOM, HTML rendering, toasts, modals, scrolling, haptics, `localStorage` and `tg.sendData`: not modelled. Form fields are values, and the submitted payload is a value.
- `recalcPrice`, `addComplexToCart` and the upsell: not modelled, because they read the DOM or use randomness.
- Wall-clock checks `checkWorkingHours` and `isPizzaAvailable`: not modelled.
- JavaScript falsiness in `qty || 1` and `priceTotal || price`: values of our integer type are falsy only when 0. `NaN` and `undefined` fields are not modelled.
- Menu.ParsePrice: takes the cell as text. A non-string cell value converted through `String(...)` is not modelled. `parseInt` loss of precision beyond 2^53 is not modelled, because our integers are unbounded.
- Menu.GetDisplayData: product ids are strings. JavaScript would compare `String(p.id)` for favourites and the raw `p.id` for `addedToFav`; the model makes no such distinction.
- The `backend/bot.py` file, the web server and the dispatcher startup: not modelled.

## Findings

| source | as written | input that shows it | evidently intended | confidence | as-written member | corrected member |
|---|---|---|---|---|---|---|
| bot.py:238 | The admin message gets "⏰ КО ВРЕМЕНИ!" only when the comment contains "Ко времени". The web app writes a chosen time as "⏰ К 12:30. " in front of the comment (script.js:809), so the flag appears only if the customer happens to type "Ко времени". | Time "12:30" chosen, no comment typed: the comment is "⏰ К 12:30. " and gets no flag. | The flag is shown exactly for orders with a chosen time, that is, when the comment starts with "⏰ К ". | not executed | Intake.TimeFlagAsWrittenMissesTimedOrder | Intake.TimeFlagIff |
