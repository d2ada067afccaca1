# Expense tracker client, modelled in Dafny

This project models the browser side of a small personal expense tracker,
together with the server's record declarations.

The browser side is a React client. Its pieces are:

- a cookie reader that finds the anti-forgery token;
- a table row that switches between viewing and editing a transaction, and
  posts the edited fields;
- a month selector that decides which transaction list to fetch;
- two creation forms, one for transactions and one for payment methods;
- the category options offered for each transaction type.

The records are the stored payment method and the stored transaction. The
model covers their choice lists, their field bounds, the decimal amount and
their two string renderings.

The pure logic is written as functions, with lemmas about them. Each
component whose state the source changes on events is a class:

- `TableRow.TransactionTableRow`: `editMode` and the draft `formState`;
- `Details.DetailsPanel`: the selected month and the transaction list;
- `Forms.TransactionForm`: the field record and the repeating switch;
- `Forms.MethodForm`: the field record.

Each `handleChange` is a map update, because the source writes
`{...state, [name]: value}`. Every network call becomes a `Request` value
appended to the object's `requests`. Its outcome is a parameter of the
method that issues it: `responseOk`, or the list received, or `None` for a
failed fetch. A call of a parent callback (`onTransactionEdited`,
`onTransactionAdded`, `onMethodAdded`) is counted in a field.

Modules, one per file:

| file | module | what |
|---|---|---|
| wrappers.dfy | Wrappers | `Option` |
| strings.dfy | Strings | JavaScript `split`, `trim`, `substring` and one-character `toUpperCase`; decimal rendering of numbers |
| http.dfy | Http | JavaScript values, recorded requests, what `JSON.stringify` keeps |
| cookie.dfy | Cookie | `getCookie` as a loop, proved against a first-match function |
| models.dfy | Models | choice lists, field validity, amounts in cents, `__str__` of both records, `SET_NULL` on method deletion |
| categories.dfy | Categories | category options per transaction type |
| row.dfy | TableRow | `capitalizeFirstLetter`, the edit guard, the row's state machine |
| details.dfy | Details | month name to number, option value to endpoint, the panel's state |
| forms.dfy | Forms | the add-transaction and add-method forms |

Some facts the lemmas establish:

- `getCookie` returns the decoded value of the first matching trimmed entry.
  It returns null when the cookie string is empty or no entry matches.
  Later matches are ignored.
- An option value built as `"<Month> <year>"` splits back into the same
  month and year. It then selects `/list_month_transactions/<n>/<year>`,
  where n is the month's number. Only the empty option selects
  `/list_all_transactions`.
- Of the category values the client offers, only `entertainment` and `other`
  are on the server's declared category list. The declared `groceries` and
  `gas` are never offered.
- The string rendering of a transaction whose type is declared (income or
  expense) determines its type and amount.
- An amount's digit bound, as Django counts digits, is `|cents| < 10^10`.

Notes on the code:

- There is no filtering by type or method, and no pagination; the month
  selector is the only filter.
- Cancel only flips `editMode`; the draft is kept, so editing again shows
  the old draft (`TableRow.CancelKeepsDraft`).
- A successful edit calls `onTransactionEdited`, which the page binds to the
  summary fetch (expenses/static/expenses/app.js:29); the list is not reloaded.
- The method types are `cash`, `credit` and `debit`.
- The American Express processor is stored as `am`.

## Model

| member | source | states |
|---|---|---|
| `Strings.Split` | expenses/static/expenses/app.js:42 | `split(';')` / `split(' ')` gives at least one piece, and no piece contains the separator |
| `Strings.JoinSplit` | expenses/static/expenses/app.js:42 | joining the pieces with the separator gives back the input, so split loses nothing |
| `Strings.SplitAfterSeparator` | expenses/static/expenses/app.js:282 | a separator-free head followed by the separator is split off as the first piece |
| `Strings.SplitWithoutSeparator` | expenses/static/expenses/app.js:282 | a string without the separator splits into itself alone |
| `Strings.Trim` | expenses/static/expenses/app.js:44 | `trim()` result is no longer than the input and neither starts nor ends with JavaScript white space |
| `Strings.TrimIsInfix` | expenses/static/expenses/app.js:44 | `trim()` removes only white space, and only from the two ends |
| `Strings.TrimIdempotent` | expenses/static/expenses/app.js:44 | trimming twice is trimming once |
| `Strings.LeadingSpace` | expenses/static/expenses/app.js:44 | counts exactly the leading white-space run |
| `Strings.TrailingSpace` | expenses/static/expenses/app.js:44 | counts exactly the trailing white-space run |
| `Strings.SubstringPrefix` | expenses/static/expenses/app.js:46 | `substring(0, p.length) === p` holds exactly when p is a prefix, including when the string is shorter |
| `Strings.Substring` | expenses/static/expenses/app.js:46-47 | JavaScript `substring` with clamping and swapped bounds; described by `Strings.SubstringPrefix` |
| `Strings.ToUpperAscii` | expenses/static/expenses/app.js:149 | `toUpperCase` of one character, for ASCII letters only; described by `TableRow.CapitalizeFirstLetter` |
| `Strings.NatToString` | expenses/static/expenses/app.js:308 | the template-string rendering of a number is a non-empty run of decimal digits |
| `Strings.ParseNatToString` | expenses/static/expenses/app.js:308 | a rendered number reads back to itself |
| `Strings.NatToStringInjective` | expenses/static/expenses/app.js:308 | distinct numbers render differently |
| `Strings.NatToStringLength` | expenses/models.py:57 | the rendering has at most k digits exactly when the number is below 10^k |
| `Cookie.Matches` | expenses/static/expenses/app.js:46 | the entry test; described by `Cookie.MatchesIsPrefix` |
| `Cookie.EntryValue` | expenses/static/expenses/app.js:47 | the decoded remainder after `name=`; described by `Cookie.FirstMatchAt` |
| `Cookie.FirstMatch` | expenses/static/expenses/app.js:43-49 | the loop's result over the trimmed entries; described by `Cookie.FirstMatchAt`, `Cookie.FirstMatchFound`, `Cookie.FirstMatchNone` |
| `Cookie.Lookup` | expenses/static/expenses/app.js:41-52 | getCookie's result; described by `Cookie.LookupSome`, `Cookie.LookupNone`, `Cookie.FirstEntryWins` |
| `Cookie.MatchesIsPrefix` | expenses/static/expenses/app.js:46 | the entry test is "begins with `name=`" |
| `Cookie.GetCookie` | expenses/static/expenses/app.js:39-53 | the loop with its early break returns the first-match lookup of the cookie string |
| `Cookie.FirstMatchAt` | expenses/static/expenses/app.js:43-49 | when entry i is the first matching trimmed entry, its decoded remainder is the result |
| `Cookie.FirstMatchFound` | expenses/static/expenses/app.js:43-49 | a found value always comes from the first matching trimmed entry |
| `Cookie.FirstMatchNone` | expenses/static/expenses/app.js:43-50 | nothing is found exactly when no trimmed entry begins with `name=` |
| `Cookie.LookupSome` | expenses/static/expenses/app.js:39-53 | getCookie gives v exactly when the cookie is non-empty and v is the decoded value of the first matching entry |
| `Cookie.LookupNone` | expenses/static/expenses/app.js:39-53 | getCookie gives null exactly when the cookie string is empty or no entry matches |
| `Cookie.EmptyCookieHasNoMatch` | expenses/static/expenses/app.js:41 | the empty-string guard is redundant: the single empty entry of `""` never matches |
| `Cookie.FirstEntryWins` | expenses/static/expenses/app.js:48 | after the first match, later entries for the same name are ignored |
| `Http.Stringify` | expenses/static/expenses/app.js:175 | `JSON.stringify` of the draft; described by `Http.StringifyDefined` |
| `Http.StringifyDefined` | expenses/static/expenses/app.js:175 | a draft with no `undefined` value is sent unchanged, so the body is the current draft |
| `Http.FromStrings` | expenses/static/expenses/app.js:408 | a string-valued form record seen as JSON; described by `Http.StringifyFromStrings` and `Http.FromStringsInjective` |
| `Http.StringifyFromStrings` | expenses/static/expenses/app.js:408 | a form record of strings is sent as it stands, with exactly its own keys |
| `Http.FromStringsInjective` | expenses/static/expenses/app.js:408 | the body determines the form record it was built from |
| `Models.ParseMethodType` | expenses/models.py:10-14 | a stored value names a method type exactly when it is on the cash/credit/debit choice list |
| `Models.ParseCardProcessor` | expenses/models.py:16-21 | a stored value names a processor exactly when it is visa, mastercard, am or discovery |
| `Models.ParseTransactionType` | expenses/models.py:33-36 | a stored value names a transaction type exactly when it is on the income/expense list |
| `Models.TransactionTypesExactly` | expenses/models.py:55 | `transaction_type` is declared over exactly {income, expense} |
| `Models.ParseCategory` | expenses/models.py:38-44 | a stored value names a category exactly when it is groceries, entertainment, gas or other |
| `Models.ParseRepeatInterval` | expenses/models.py:46-51 | a stored value names an interval exactly when it is none, weekly, monthly or yearly |
| `Models.DefaultRepeatIntervalIsOneTime` | expenses/models.py:59 | the default `repeat_interval` is on the choice list and means one-time |
| `Models.ValidAmount` | expenses/models.py:57 | the amount's digit budget; described by `Models.ValidAmountDigits` |
| `Models.FormatAmount` | expenses/models.py:62 | `str()` of a two-place decimal; described by `Models.ParseFormatAmount` and `Models.FormatAmountInjective` |
| `Models.ValidAmountDigits` | expenses/models.py:57 | ten digits with two decimal places means at most eight whole digits, that is `abs(cents) < 10^10` |
| `Models.ParseUnsignedText` | expenses/models.py:57 | the digits of a non-negative two-place amount read back to the same number of cents |
| `Models.ParseFormatAmount` | expenses/models.py:57 | the two-place decimal rendering of any amount reads back to the same amount |
| `Models.FormatAmountInjective` | expenses/models.py:62 | distinct amounts render differently |
| `Models.ValidPaymentMethod` | expenses/models.py:24-26 | what field validation accepts for a method; described by `Models.ValidPaymentMethodIff` |
| `Models.ValidPaymentMethodIff` | expenses/models.py:24-26 | a method validates exactly when its name is non-blank and fits 100 characters and its type and processor are on their choice lists; the choice values always fit their `max_length` |
| `Models.MethodStr` | expenses/models.py:28-29 | `PaymentMethod.__str__`; described by `Models.MethodStrIsName` |
| `Models.MethodStrIsName` | expenses/models.py:28-29 | `PaymentMethod.__str__` is the name, whatever the type and processor |
| `Models.ValidTransaction` | expenses/models.py:55-59 | what field validation accepts for a transaction; described by `Models.ValidTransactionIff` |
| `Models.ValidTransactionIff` | expenses/models.py:55-59 | a transaction validates exactly when its type, category and interval are on their choice lists and its amount fits ten digits; the choice values always fit their `max_length` |
| `Models.TransactionStr` | expenses/models.py:61-62 | `Transaction.__str__`; described by `Models.ParseTransactionStrInverse` and `Models.TransactionStrInjective` |
| `Models.ParseTransactionStrInverse` | expenses/models.py:61-62 | `"{transaction_type} - {amount} USD"` of a declared type reads back to that type and amount |
| `Models.TransactionStrInjective` | expenses/models.py:61-62 | two transactions of declared types render alike only if their types and amounts agree |
| `Models.OnMethodDeleted` | expenses/models.py:54 | deleting a method sets every reference to it to null, changes nothing else, and keeps field validity, which never reads the reference |
| `Categories.CategoryOptions` | expenses/static/expenses/app.js:348-370 | an offered value is "other", or an income option for income, or an expense option for expense; "other" comes last |
| `Categories.CategoryOptionsDistinct` | expenses/static/expenses/app.js:233-235 | no category option is offered twice for a type |
| `Categories.OptionsOverlapOnlyInOther` | expenses/static/expenses/app.js:450-452 | the income and expense selects share only "other" |
| `Categories.OfferedCategoriesAgainstDeclared` | expenses/models.py:38-44 | of the offered values only entertainment and other are declared categories, so food, housing or porftolio are rejected |
| `Categories.DeclaredButNeverOffered` | expenses/models.py:38-44 | groceries and gas are declared but never offered |
| `TableRow.Seed` | expenses/static/expenses/app.js:136-142 | the draft seeded from the transaction, also the reset after a successful edit; described by `TableRow.SeedNotBlocked` and `TableRow.UntouchedDraftBody` |
| `TableRow.SeedNotBlocked` | expenses/static/expenses/app.js:163 | an untouched draft can be submitted exactly when none of the transaction's five fields is the empty string |
| `TableRow.UntouchedDraftBody` | expenses/static/expenses/app.js:175 | an untouched draft of a fully defined transaction is sent as the transaction's own five fields |
| `TableRow.Field` | expenses/static/expenses/app.js:163 | a property read that gives `undefined` for a missing key; described by `TableRow.EditBlockedIff` and `TableRow.NonStringsNeverBlock` |
| `TableRow.EditUrl` | expenses/static/expenses/app.js:169 | `/edit_transaction/${transaction.id}`; described by `TableRow.EditUrlInjective` |
| `TableRow.EditBlocked` | expenses/static/expenses/app.js:163 | the edit guard; described by `TableRow.EditBlockedIff` and `TableRow.NonStringsNeverBlock` |
| `TableRow.EditBlockedIff` | expenses/static/expenses/app.js:163 | the guard blocks exactly when one of methodID, type, repeat_interval, category, amount is strictly the empty string |
| `TableRow.NonStringsNeverBlock` | expenses/static/expenses/app.js:163 | under strict equality, number, null or missing fields never block the submit |
| `TableRow.EditUrlInjective` | expenses/static/expenses/app.js:169 | distinct transactions are edited at distinct URLs, so the URL names the transaction |
| `TableRow.CapitalizeFirstLetter` | expenses/static/expenses/app.js:148-150 | keeps the length and every character after the first; `""` gives `""`; the first letter is upper-cased and any other first character is kept |
| `TableRow.CapitalizeIdempotent` | expenses/static/expenses/app.js:148-150 | capitalizing twice is capitalizing once |
| `TableRow.TransactionTableRow.constructor` | expenses/static/expenses/app.js:135-142 | a row starts in view mode with its draft seeded from the transaction and no request issued |
| `TableRow.TransactionTableRow.ToggleEditMode` | expenses/static/expenses/app.js:144-146 | Edit and cancel both only flip `editMode`; the draft is untouched |
| `TableRow.TransactionTableRow.HandleChange` | expenses/static/expenses/app.js:197-203 | exactly the named draft key takes the input's string value |
| `TableRow.TransactionTableRow.HandleEdit` | expenses/static/expenses/app.js:162-195 | a blocked draft issues nothing. Otherwise one POST carries the draft. On success the draft resets, the row leaves edit mode and the callback runs once. On failure nothing else changes |
| `Details.IndexOf` | expenses/static/expenses/app.js:283 | finds a position exactly when the name is in the list, and the position holds that name |
| `Details.IndexOfDistinct` | expenses/static/expenses/app.js:283 | in a list without repeats, the i-th name is found at i |
| `Details.MonthIndex` | expenses/static/expenses/app.js:283 | a found month number lies in 1..12 and names that month |
| `Details.MonthIndexDefined` | expenses/static/expenses/app.js:283 | exactly the twelve English month names have a number |
| `Details.MonthIndexOfName` | expenses/static/expenses/app.js:283 | the name of month m gives back m |
| `Details.OptionValue` | expenses/static/expenses/app.js:308 | an option's value; described by `Details.OptionValueSplits` |
| `Details.MonthNumberText` | expenses/static/expenses/app.js:283 | the month number the URL shows; described by `Details.MonthOptionEndpoint` and `Details.UnknownMonthEndpoint` |
| `Details.YearText` | expenses/static/expenses/app.js:282 | the destructured year; described by `Details.MonthOptionEndpoint` |
| `Details.Endpoint` | expenses/static/expenses/app.js:280-291 | the selection-to-endpoint map; described by the four `Details` endpoint lemmas below |
| `Details.OptionValueSplits` | expenses/static/expenses/app.js:308 | an option value built from a month entry splits back into the same month and year |
| `Details.MonthOptionEndpoint` | expenses/static/expenses/app.js:280-286 | the option of a named month fetches `/list_month_transactions/{number}/{year}` |
| `Details.UnknownMonthEndpoint` | expenses/static/expenses/app.js:283-284 | a month name outside the table puts NaN in the URL |
| `Details.MonthEndpointPrefix` | expenses/static/expenses/app.js:281-284 | every non-empty selection fetches a month list |
| `Details.AllTransactionsOnlyForEmpty` | expenses/static/expenses/app.js:287-291 | `/list_all_transactions` is fetched exactly for the empty selection |
| `Details.Options` | expenses/static/expenses/app.js:305-309 | the select's option values; described by `Details.OptionsSelectTheirMonth` and `Details.OptionsAfterFirstNarrow` |
| `Details.OptionsSelectTheirMonth` | expenses/static/expenses/app.js:305-309 | "All time" fetches every transaction, and each later option fetches its own entry's month number and year |
| `Details.OptionsAfterFirstNarrow` | expenses/static/expenses/app.js:305-309 | no option after "All time" fetches every transaction |
| `Details.DetailsPanel.constructor` | expenses/static/expenses/app.js:270-292 | mounting fetches the months, then all transactions; the selection is empty |
| `Details.DetailsPanel.HandleMonthChange` | expenses/static/expenses/app.js:280-296 | a changed selection issues the one fetch its endpoint names; the list received replaces the old one wholesale |
| `Forms.ReadyToRegister` | expenses/static/expenses/app.js:398-400 | the add-transaction guard; described by `Forms.ReadyToRegisterIff` |
| `Forms.ReadyToRegisterIff` | expenses/static/expenses/app.js:398-401 | the add-transaction guard holds exactly when none of the five fields is empty |
| `Forms.DefaultsNotReady` | expenses/static/expenses/app.js:376-382 | the defaults hold the five fields, repetition is "none", and a reset form cannot be posted again |
| `Forms.TransactionForm.constructor` | expenses/static/expenses/app.js:374-382 | the form starts at its defaults with the switch off |
| `Forms.TransactionForm.HandleChange` | expenses/static/expenses/app.js:384-389 | exactly the named field takes the new value |
| `Forms.TransactionForm.HandleCheck` | expenses/static/expenses/app.js:391-393 | the switch flips and `repetition` keeps its value |
| `Forms.TransactionForm.CreateTransaction` | expenses/static/expenses/app.js:395-434 | with a field empty, nothing is sent. Otherwise one POST to `/register_transaction` carries the record. On success the record resets to its defaults, the switch turns off and the callback runs once |
| `Forms.ReadyToCreateMethod` | expenses/static/expenses/app.js:512 | the add-method guard; described by `Forms.ReadyToCreateMethodIff` |
| `Forms.ReadyToCreateMethodIff` | expenses/static/expenses/app.js:512 | the add-method guard holds exactly when none of the three fields is empty |
| `Forms.MethodForm.constructor` | expenses/static/expenses/app.js:496-500 | the form starts with three empty fields |
| `Forms.MethodForm.HandleChange` | expenses/static/expenses/app.js:502-507 | exactly the named field takes the new value |
| `Forms.MethodForm.CreateMethod` | expenses/static/expenses/app.js:509-543 | with a field empty, nothing is sent. Otherwise one POST to `/method` carries the record. On success the fields are cleared and the callback runs once |

## Left out

- Rendering: JSX, the summary components and the balance colour rule (expenses/static/expenses/app.js:59-130) are presentation.
- Asynchrony: each fetch is modelled as completing within the event that issues it. Out-of-order responses are not modelled. Neither is the state captured by an earlier render, as in the `toggleEditMode` inside the edit response handler.
- `TableRow.TransactionTableRow.HandleEdit` requires edit mode, because its button is rendered only then (expenses/static/expenses/app.js:205-209). On success it flips `editMode`, which in that situation means leaving edit mode.
- The repetition switch (expenses/static/expenses/app.js:470) is bound by `value`, not `checked`, so after the reset at line 422 the visible switch may disagree with the state. The model holds only the React state `checked`.
- The summary and method fetches of the page (`fetchSummary`, `fetchMethods`) are not performed. The model only counts the callbacks that trigger them.
- `document.cookie` is a parameter. `decodeURIComponent` is a decoder parameter, so its `URIError` on malformed input is not modelled.
- `Date.parse` month parsing is replaced by a table of the twelve full English month names. `Date.parse` also accepts abbreviations and other spellings; the model gives NaN for those.
- `formatTimestamp` and `toLocaleDateString` are locale formatting for display.
- `Strings.ToUpperAscii`: maps only the ASCII letters `a`-`z`. JavaScript's `toUpperCase` also maps other letters, some of them to several characters (`ß` to `SS`).
- `TableRow.CapitalizeFirstLetter`: upper-cases ASCII letters only. JavaScript's `toUpperCase` also maps other letters, some of them to several characters (`ß` to `SS`).
- Strings are Dafny character sequences, not UTF-16 code units. Lengths differ for characters outside the Basic Multilingual Plane.
- `Http.JsValue` numbers are integers. A fractional JSON number, such as an amount sent as a number, is not represented.
- A row keeps its state for its transaction id across list replacements (React keys). The model gives each row object one fixed transaction.
- The GETs of the Details panel (expenses/static/expenses/app.js:275-277, 284-286, 288-290) never test `response.ok`. In the model a GET's outcome is "a list arrived" or "nothing stored", whatever the status; a JSON body that is not an array, which would break `transactions.map` at line 330, is not modelled. For the POSTs, `responseOk` means that the status was ok and the body parsed as JSON (lines 177-180, 410-413, 521-524).
- The `/list_months` fetch is done once at mount. Its failure leaves the month list empty.
- `Models.FormatAmount` renders amounts as read back from the database, with exactly two places. A freshly assigned value such as `12.5` would print as given.
- The `User` model, the `CASCADE` deletions, the `date` timestamp and Django's save machinery are not modelled. The validity predicates state the field checks that need no database.
- `Models.ValidTransaction` and `Models.ValidPaymentMethod`: the foreign-key checks are not modelled, because they need the database. `userID` and a non-null `payment_methodID` must name existing rows (expenses/models.py:23, 53-54). The predicates never read these references, so `Models.OnMethodDeleted` keeps validity for that reason, not because of `SET_NULL`.
- expenses/static/expenses/nav-buttons.js only shows and hides panels in the page.
- expenses/migrations/0002_paymentmethod_transaction.py is a generated schema that models.py supersedes.
- expenses/urls.py and expenses/views.py hold routing and one template render. The server handlers behind the endpoints are not part of this model.
