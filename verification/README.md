# Card panel, registration form, session guards and admin list — a Dafny model

This project models the client-side logic of a small React application.

- **Card panel** (`src/pages/Checker.jsx`):
  - classifies a BIN (the leading digits of a card number) into amex, visa, mastercard or other;
  - pads the BIN with random digits and appends a Luhn check digit (Annex B of ISO/IEC 7812-1);
  - picks an expiry month, an expiry year and a security code;
  - validates a generation request and produces a batch of `number|month|year|cvv` lines;
  - manages a staging list capped at 130 lines.
- **Registration form** (`src/pages/Register.jsx`): the password-strength label, the password-match flag, the submit gate, and the username and Telegram ID patterns.
- **Session reading and route guards** (`src/App.jsx`, `src/components/ProtectedRoute.jsx`): `getCookie`, the strict `isLoggedIn === "true"` guard the routes use, the looser two-cookie guard component, and the route table.
- **Administration page** (`src/pages/Admin.jsx`): the role guard, the status filter and per-status counts, and the checks that run before an approve or reject request is sent.

Everything is modelled as pure functions over immutable data:

- **Randomness.** `Math.random()` becomes an oracle `o: nat -> nat` read through a cursor. `Math.floor(Math.random() * n)` becomes `o(k) % n`.
- **Cookie decoding.** `decodeURIComponent` is a function parameter.
- **Cookie reads.** The document's cookie string is an argument.
- **Edits.** A state change is a function from the old state to the new one.

JavaScript details are written out where they matter:

- `parseInt("")` is NaN (`None`), and NaN compares false.
- `substring` clamps to the string's length.
- `split(';')` on a one-character separator.
- `trim` removes the full ECMAScript WhiteSpace and LineTerminator set.
- `padStart` pads on the left.
- A password's `.length` counts UTF-16 code units.

Modules, in dependency order:

- **Text**: digits, decimal values, `split`/`join`, `trim`, `padStart`.
- **Luhn**: the reference total, the check digit, and the two loops as methods.
- **Networks**: `getCardType`.
- **Generator**: number, month, year and code synthesis, and the record's text form.
- **Batch**: `handleGenerate`.
- **Panel**: add, clear, the unique count, and runs of actions.
- **Inputs**: the three field sanitisers of the panel.
- **Register**: the registration form.
- **Cookies**: `getCookie`.
- **Routes**: the guards and the route table.
- **Admin**: the administration page's local logic.

A generated number is `max(|bin|, L - 1) + 1` digits long, where L is 15 for amex and 16 otherwise. A BIN is never truncated, so a 16-digit visa BIN gives a 17-digit number; `Generator.GenerateCardFromBin` states exactly this length.

## Model

| member | source | states |
|---|---|---|
| `Networks.GetCardType` | src/pages/Checker.jsx:17-39 | On a digit string, the result is amex iff the amex rule (34/37) holds, visa iff it starts with 4, mastercard iff the first two digits are 51-55 or the first four 2221-2720, and other iff none holds |
| `Networks.ClassifierShape` | src/pages/Checker.jsx:18-33 | The clamped `substring` prefixes and `parseInt` comparisons the source writes, with NaN for an empty prefix, decide exactly the three rules |
| `Networks.RulesDisjoint` | src/pages/Checker.jsx:21-35 | At most one of the three rules holds for any digit string, so first-match order never changes the answer |
| `Networks.MastercardLeadingDigit` | src/pages/Checker.jsx:29-35 | A mastercard prefix starts with 5 or 2, which is why a 34/37 or 4 prefix is never mastercard |
| `Luhn.LuhnCheck` | src/pages/Checker.jsx:42-59 | The right-to-left loop with the toggling flag returns true iff the positional Luhn total (doubling at odd distance from the right end) is a multiple of 10 |
| `Luhn.GenerateCheckDigit` | src/pages/Checker.jsx:62-80 | The same loop with the flag starting on returns the check digit of the reference definition |
| `Luhn.CheckDigit` | src/pages/Checker.jsx:78 | The check digit is below 10, appending it makes the number Luhn-valid, and it is the only digit that does |
| `Luhn.ValidIffCheckDigit` | src/pages/Checker.jsx:42-80 | A number passes the Luhn check iff its last digit is the check digit of the digits before it |
| `Luhn.CompleteAndCheck` | src/pages/Checker.jsx:94-95 | Appending the computed check digit gives a number one digit longer that starts with the input and passes `luhnCheck` |
| `Luhn.LuhnSumAppend` | src/pages/Checker.jsx:64 | Appending a digit moves every earlier digit's doubling by one place, which is why generation starts with the flag on |
| `Luhn.SingleDigitErrorDetected` | src/pages/Checker.jsx:42-59 | Changing any single digit of a valid number makes it fail the check |
| `Luhn.LuhnSumStep` | src/pages/Checker.jsx:46-56 | One loop iteration adds the weighed digit at position i, doubled exactly when its distance from the right end is odd (or even, with the flag starting on), to the total of the digits after it |
| `Luhn.LuhnSumOneChange` | src/pages/Checker.jsx:46-56 | Changing one digit changes the loop's total only by the difference of that digit's two weights |
| `Generator.PadDigits` | src/pages/Checker.jsx:88-91 | The padding loop keeps the BIN as a prefix, reaches the target length (never truncates), and fills each new place with the digit drawn for it |
| `Generator.GenerateCardFromBin` | src/pages/Checker.jsx:83-98 | The number is all digits, starts with the BIN, passes the Luhn check, has length max(\|bin\|, L-1)+1 with L = 15 for amex and 16 otherwise, and ends in the check digit of its other digits |
| `Generator.RandomMonth` | src/pages/Checker.jsx:101-103 | The month is a two-character digit string with value 1 to 12 |
| `Generator.RandomYear` | src/pages/Checker.jsx:106-109 | The year prints as four digits with value 2025 to 2032 |
| `Generator.RandomCvv` | src/pages/Checker.jsx:112-116 | The code is all digits and 4 long for an amex BIN, 3 otherwise |
| `Generator.FormatParse` | src/pages/Checker.jsx:162 | The `number\|month\|year\|cvv` line splits back into its four fields when no field holds a bar |
| `Batch.RecordParses` | src/pages/Checker.jsx:153-162 | A record made from a listed BIN, with month, year and CVV fields free of bars, formats to a line that parses back to that same record |
| `Batch.LineParses` | src/pages/Checker.jsx:162 | Any line formatted from a record of a listed BIN parses back to a record of a listed BIN |
| `Batch.BinList` | src/pages/Checker.jsx:141-143 | On the BIN field, the list holds exactly the `;`-separated pieces of 6 to 16 characters, each all digits and each as often as the field repeats it |
| `Batch.KeepBinLengths` | src/pages/Checker.jsx:143 | The length filter keeps exactly the elements of 6 to 16 characters, each with its multiplicity, and nothing else |
| `Batch.KeepBinLengthsConcat` | src/pages/Checker.jsx:143 | The filter distributes over concatenation, so the kept pieces stay in input order, which the BIN draw by index depends on |
| `Batch.NextRecord` | src/pages/Checker.jsx:153-162 | One loop iteration yields a record made from some BIN of the list, with month, year and code chosen or passed through |
| `Batch.GenerateRecords` | src/pages/Checker.jsx:151-164 | The loop yields exactly n records, each made from some BIN of the list |
| `Batch.HandleGenerate` | src/pages/Checker.jsx:118-168 | Each of the four errors is returned iff every earlier check passes and its own fails; the CVV check (`validateCvv`) accepts an empty field or one of 3 or 4 characters; it does not look at the characters, and the field holds only digits because its input handler (`Inputs.SanitizeCvv`) keeps only digits. On success there are quantity records, each with a number from a listed BIN, the chosen month/year or a random one, and the CVV override verbatim or a generated code of the network's length |
| `Batch.NoBinsIffEmpty` | src/pages/Checker.jsx:127 | On the sanitised BIN field the first check fails exactly when the field is empty |
| `Panel.GenerateStep` | src/pages/Checker.jsx:125-168 | Generating never touches the panel; a refused request changes nothing; it succeeds iff all four checks pass, and then the batch becomes quantity lines, each the `number\|month\|year\|cvv` text of a record made from a listed BIN |
| `Panel.OneCardRequestSucceeds` | src/pages/Checker.jsx:125-168 | A request for one card from the BIN `123456` with random month and year and no CVV passes every check and meets the conditions under which every generated line parses back |
| `Panel.GeneratedLinesParse` | src/pages/Checker.jsx:153-164 | Every line of a successful batch splits back into a record whose number comes from a listed BIN, with the requested or generated month, year and CVV |
| `Panel.HandleAdd` | src/pages/Checker.jsx:171-200 | With no batch or a full panel, nothing changes. Otherwise the panel becomes old + the first min(130-\|old\|, \|batch\|) lines, added + remaining = \|batch\|, the batch is emptied, and the panel ends at most 130 (exactly 130 when lines were left over) |
| `Panel.HandleClear` | src/pages/Checker.jsx:203-207 | Both lists are empty afterwards |
| `Panel.ClearIdempotent` | src/pages/Checker.jsx:203-207 | Clearing twice is clearing once |
| `Panel.UniqueCards` | src/pages/Checker.jsx:210 | The unique list has no repeats, the same members as the panel, is no longer than it, and is as long iff the panel has no repeats |
| `Panel.UniqueCount` | src/pages/Checker.jsx:210 | The unique count equals the number of distinct lines on the panel; it is at most the panel length, equal iff no line repeats, and zero iff the panel is empty |
| `Panel.DistinctCardinality` | src/pages/Checker.jsx:210 | A list without repeats has as many distinct members as elements, which ties the `Set` size to the de-duplicated list |
| `Panel.UniqueCountExample` | src/pages/Checker.jsx:210 | Two equal lines and a different one count as two |
| `Panel.RunKeepsCapacity` | src/pages/Checker.jsx:178-188 | From a panel of at most 130 lines, any sequence of generate, add and clear keeps it at most 130 |
| `Panel.StepKeepsCapacity` | src/pages/Checker.jsx:178-188 | One action keeps a panel of at most 130 lines within 130 |
| `Panel.OverflowExample` | src/pages/Checker.jsx:185-190 | Adding a 200-line batch to an empty panel adds 130 and reports 70 left over; adding again finds the panel full |
| `Inputs.SanitizeBins` | src/pages/Checker.jsx:267-276 | The BIN handler's output holds only digits and `;` with at most 16 characters per piece; its `;`-pieces are exactly the pieces of the filtered input, each cut to its first 16 characters; input already of that shape is unchanged |
| `Inputs.SanitizeBinsIdempotent` | src/pages/Checker.jsx:267-276 | Sanitising the BIN field twice is sanitising it once |
| `Inputs.KeepDigitsAndSemicolons` | src/pages/Checker.jsx:269 | The character filter leaves only digits and `;`, keeps every digit and `;` of the input with its multiplicity, and leaves such strings as they are |
| `Inputs.KeepDigitsAndSemicolonsConcat` | src/pages/Checker.jsx:269 | The filter works character by character: filtering a concatenation concatenates the filtered parts, so the kept characters stay in input order |
| `Inputs.KeepDigits` | src/pages/Checker.jsx:334 | The CVV filter leaves only digits, keeps every digit of the input with its multiplicity, and leaves digit strings as they are |
| `Inputs.KeepDigitsConcat` | src/pages/Checker.jsx:334 | Filtering a concatenation concatenates the filtered parts |
| `Inputs.SanitizeCvv` | src/pages/Checker.jsx:333-336 | The CVV field takes the digits of the edit when there are at most 4, else keeps its old value; a field of at most 4 digits stays so |
| `Inputs.SanitizedCvvValidates` | src/pages/Checker.jsx:118-121 | Whatever is typed, the sanitised CVV field passes `validateCvv` iff it does not hold exactly 1 or 2 digits |
| `Inputs.ClampQuantity` | src/pages/Checker.jsx:350-353 | The quantity is always 1 to 130: NaN and 0 give 1, values inside the range are kept, values outside are clamped |
| `Register.PasswordStrength` | src/pages/Register.jsx:28-37 | Exactly one strength per password: none iff empty, weak iff non-empty and under 6 UTF-16 units, medium iff at least 6 without both an ASCII letter and a digit, strong iff at least 6 with both |
| `Register.TestLetter` | src/pages/Register.jsx:33 | The left-to-right scan finds a letter iff the password has an ASCII letter somewhere |
| `Register.TestDigit` | src/pages/Register.jsx:33 | The scan finds a digit iff the password has an ASCII digit somewhere |
| `Register.LabelInjective` | src/pages/Register.jsx:30-36 | The four labels are pairwise different, so comparing labels compares strengths |
| `Register.HandleChange` | src/pages/Register.jsx:19-40 | The edited field is stored. A password edit recomputes the label from the new value. Either password edit sets the match flag to "equal and non-empty" over the new pair (`PasswordsMatch`). Other fields leave label and flag alone |
| `Register.ChangeKeepsConsistent` | src/pages/Register.jsx:19-40 | After any edit the label is the current password's strength and the flag is the current match, except that the initial true survives while both passwords are empty |
| `Register.InitialConsistent` | src/pages/Register.jsx:7-16 | The initial state (empty fields, empty label, flag true) satisfies that invariant |
| `Register.HandleSubmit` | src/pages/Register.jsx:42-53 | The strength refusal comes iff the label is not "Fuerte"; the match refusal iff it is and the flag is false; otherwise the form is sent unchanged |
| `Register.Submit` | src/pages/Register.jsx:42-53 | The browser blocks the submit iff a field is empty, the username is not 4 to 20 UTF-16 units or fails its pattern, or the Telegram ID fails its pattern (`BrowserAccepts`; the email's format is not modelled); a registration that is sent carries the form unchanged, with a valid username and Telegram ID |
| `Register.ClearAfterSuccess` | src/pages/Register.jsx:74-75 | Clearing the fields after a successful registration keeps the label and the match flag, and the cleared form is blocked by the browser until fields are typed again |
| `Register.SubmitSendsIffStrongAndMatching` | src/pages/Register.jsx:42-55 | On any state reachable by edits, the request is sent iff the password is strong and equals its confirmation |
| `Register.UsernameValid` | src/pages/Register.jsx:104 | The username pattern accepts exactly an ASCII letter followed by 3 to 19 ASCII letters or digits (4 to 20 characters) |
| `Register.MatchAlnumRun` | src/pages/Register.jsx:104 | The bounded-repetition matcher accepts exactly strings of allowed length made of ASCII letters and digits |
| `Register.TelegramIdValid` | src/pages/Register.jsx:135 | The Telegram ID pattern accepts exactly strings of 8 or more ASCII digits |
| `Register.SentRegistrationIsValid` | src/pages/Register.jsx:42-55 | A request that passes the browser's constraints and the submit gate carries a valid username, a valid Telegram ID, and a strong password equal to its confirmation |
| `Cookies.StripLeadingSpaces` | src/App.jsx:15 | Exactly the leading U+0020 characters are removed: what remains is a suffix not starting with a space |
| `Cookies.FirstMatch` | src/App.jsx:13-19 | The loop returns the first segment index that starts with `name=` after stripping, or nothing iff no segment does |
| `Cookies.GetCookie` | src/App.jsx:10-21 | The result is null iff no stripped segment starts with `name=`. Otherwise it is the decoded text after `name=` in the first such segment |
| `Cookies.GetCookieAt` | src/App.jsx:13-18 | Whichever segment is the first match, its decoded value is the result |
| `Cookies.KeyMustEqualName` | src/App.jsx:11-16 | For names without `=`, a `key=value` segment matches iff the key is the name, so `isLoggedInX` or `xisLoggedIn` never matches `isLoggedIn` |
| `Cookies.TabIsNotStripped` | src/App.jsx:15 | A segment starting with a tab never matches: only spaces are stripped |
| `Cookies.SpacesAreStripped` | src/App.jsx:15 | Any number of leading spaces before a segment is ignored |
| `Cookies.JarSegmentMatches` | src/App.jsx:13-16 | An entry of `document.cookie`, with or without the space the browser puts after each `;`, matches a name iff it is that cookie's name, and then reads that cookie's value |
| `Cookies.ReadJar` | src/App.jsx:10-21 | On the `document.cookie` of any cookie jar, `getCookie` returns the decoded value of the cookie with that name, wherever it sits among the others |
| `Cookies.ReadJarAbsent` | src/App.jsx:10-21 | A name that no cookie in the jar has reads as `null` |
| `Cookies.SingleSegment` | src/App.jsx:10-18 | A cookie string of one `name=value` segment after spaces yields the decoded value |
| `Cookies.FirstSegmentWins` | src/App.jsx:13-18 | When the first segment matches, later duplicates are ignored |
| `Routes.AppGuard` | src/App.jsx:24-31 | The shell's guard (`isAuthenticated`) renders iff the `isLoggedIn` value is exactly "true", and otherwise redirects to `/` |
| `Routes.SessionGuard` | src/components/ProtectedRoute.jsx:17-28 | The component renders iff both `isLoggedIn` and `currentUsername` are present and non-empty, and otherwise redirects to `/` |
| `Routes.GuardsCompared` | src/components/ProtectedRoute.jsx:22-27 | The two guards disagree in exactly two ways: the shell's alone passes a "true" flag with no user, and the component alone passes a non-empty flag other than "true" with a user |
| `Routes.ReadLoginCookie` | src/pages/Login.jsx:86-93 | In any cookie jar that holds the `isLoggedIn` and `currentUsername` cookies the login sets, among `userRole`, the saved fields or cookies left from earlier, both cookie readers (`ReadSession`, src/components/ProtectedRoute.jsx:4-19) read the decoded flag and user |
| `Routes.SecondLoginExample` | src/pages/Home.jsx:107-109 | After a logout that deletes only the session cookies and a new login, the jar lists `userRole` and `savedUsername` first; the session still reads as signed in and the shell renders |
| `Routes.LoggedOutFlagPassesLooseGuard` | src/components/ProtectedRoute.jsx:22-27 | In any cookie jar whose `isLoggedIn` decodes to something other than "true" or "" and whose `currentUsername` is non-empty, the component renders and the shell's guard redirects |
| `Routes.MissingUserFailsLooseGuard` | src/App.jsx:24-31 | In any cookie jar with a "true" `isLoggedIn` and no `currentUsername`, the shell's guard renders and the component redirects |
| `Routes.Route` | src/App.jsx:37-78 | `/` and `/register` show their pages unguarded. A guarded page is shown only when authenticated. Every redirect goes to `/`, and unauthenticated visitors see only the login or register page |
| `Routes.GuardedPaths` | src/App.jsx:41-75 | `/index`, `/checker`, `/admin` and `/compras` each show their page iff the session is authenticated |
| `Routes.UnknownPathLandsOnLogin` | src/App.jsx:77-78 | Any path outside the table redirects to `/` and ends on the login page |
| `Routes.Land` | src/App.jsx:29-78 | Without authentication every path except `/register` ends on the login page |
| `Routes.PanelBackAsWrittenLandsOnLogin` | src/pages/Checker.jsx:218 | The panel's back button, going to `/home`, is redirected to `/` and ends on the login page, signed in or not |
| `Routes.PanelBackLandsHome` | src/App.jsx:41-48 | Navigating to `/index` with an authenticated session ends on the home page |
| `Admin.UserRole` | src/pages/Admin.jsx:31 | A present non-empty `userRole` cookie value is the role; a missing or empty one gives "user"; the role is never empty |
| `Admin.ActingUser` | src/pages/Admin.jsx:32 | A present non-empty `currentUsername` cookie value is the acting user; a missing or empty one gives "Admin"; the acting user is never empty |
| `Admin.RoleEffect` | src/pages/Admin.jsx:31-38 | The page keeps the session iff its `userRole` cookie reads "admin" or "seller", and otherwise sends it to `/index` |
| `Admin.HandleApprove` | src/pages/Admin.jsx:69-84 | No request iff the email or password is empty; a request's `approvedBy` is the session's `currentUsername` when that is present and non-empty, and "Admin" otherwise |
| `Admin.HandleReject` | src/pages/Admin.jsx:103-117 | No request iff the reason is all whitespace; a request carries the reason untrimmed, and its `rejectedBy` is the session's `currentUsername` when that is present and non-empty, and "Admin" otherwise |
| `Admin.OrDefault` | src/pages/Admin.jsx:31-32 | A cookie's value is used when present and non-empty, the fallback otherwise |
| `Admin.RoleGuard` | src/pages/Admin.jsx:35-38 | The page keeps the user iff the role is "admin" or "seller", and otherwise sends them to `/index` |
| `Admin.MissingRoleIsSentAway` | src/pages/Admin.jsx:31 | A missing or empty role cookie acts as "user" and is sent away |
| `Admin.FilterPurchases` | src/pages/Admin.jsx:136-139 | "all" returns the list unchanged. Any other filter returns an order-preserving subsequence in which every purchase has that status and each purchase with that status keeps its multiplicity, so its length is that status's count |
| `Admin.KeepStatus` | src/pages/Admin.jsx:138 | The filter callback kept left to right yields exactly the purchases of the status, in order |
| `Admin.CountStatus` | src/pages/Admin.jsx:191 | A per-status count is at most the total |
| `Admin.TabCountsWithinTotal` | src/pages/Admin.jsx:191-221 | Pending + approved + rejected is at most the "all" count |
| `Admin.TabCountsCoverKnownStatuses` | src/pages/Admin.jsx:191-221 | When every purchase has one of the three statuses, the three tabs add up to the total |
| `Admin.ApproveCheck` | src/pages/Admin.jsx:69-84 | Approval is refused with no request iff the account email or password is empty. Otherwise the request carries the purchase, both account fields and the acting user |
| `Admin.RejectCheck` | src/pages/Admin.jsx:103-116 | Rejection is refused with no request iff the reason is all whitespace. Otherwise the reason is sent untrimmed with the purchase and the acting user |
| `Text.Trim` | src/pages/Checker.jsx:127 | `trim` is a slice `s[i..j]` of the input with only whitespace before i and after j. It is empty iff the string is all whitespace, a non-empty result starts and ends with non-whitespace, and a string without whitespace is unchanged |
| `Text.TrimDigitsOnly` | src/pages/Checker.jsx:143 | Trimming a string of digits and `;` changes nothing, so the trim in the BIN list is a no-op on the sanitised field |
| `Text.Split` | src/pages/Checker.jsx:143 | `split(';')` yields at least one piece, and the pieces hold only non-separator characters of the input |
| `Text.JoinSplit` | src/pages/Checker.jsx:270-275 | Joining the pieces of a split gives back the string |
| `Text.SplitJoin` | src/pages/Checker.jsx:270-275 | Splitting a join of separator-free pieces gives back the pieces |
| `Text.ZeroPadded` | src/pages/Checker.jsx:102 | `String(n).padStart(k, '0')` for n < 10^k is k digits with value n |
| `Text.NatToString` | src/pages/Checker.jsx:108 | Printing a number gives digits with that value and no leading zero |

## Left out

- Network I/O: every `fetch` to the backend is left out. Only the checks before a request, and the request body the checks pass on, are modelled.
- Cookie writes: `document.cookie` writes, cookie expiry, `deleteCookie` and logout are left out. The cookie string is an argument, or the `document.cookie` of a cookie jar given as an argument.
- Cookies.ReadJar: a jar holds well-formed cookies (a non-empty name without `=`, `;` or a leading space, a value without `;`) with pairwise different names, in the order the browser lists them. Cookies with the same name on different paths or domains are not modelled: every cookie here is set on `/`.
- Cookies.GetCookie: `decodeURIComponent` is a parameter. Its URIError on a malformed escape, which would throw out of `getCookie`, is not modelled.
- Routes.Route: paths are compared exactly. React Router also matches case-insensitively and ignores a trailing slash.
- Routes.Route: navigation, rendering and `replace` history handling are outside the model.
- Randomness: `Math.random` is an arbitrary oracle, so any value in range can occur. Nothing is claimed about distribution or uniformity.
- Generator.RandomYear: the year is a JavaScript number printed by the template literal. The model prints it in decimal directly.
- Register.Submit / Register.BrowserAccepts: the `type="email"` format check is not modelled; only the email being non-empty is. The browser applies `minLength` only after the user edits the field. That does not matter here, because the pattern already limits the length.
- Register.HandleChange: React batches state updates. The model applies each change event to the state left by the previous one.
- UI: the Admin page's `alert` calls, the Register page's delayed redirect after a successful registration (`setTimeout`), the card panel's clipboard copy of its lines, on-screen messages and rendering are left out. So are the Admin role effect's own navigation and the `useEffect` timing.
- Register.Consistent: the invariant, and so `Register.SubmitSendsIffStrongAndMatching`, covers the states reached by edits from the initial state. After a successful registration the fields are cleared but the label and the match flag keep their values (`Register.ClearAfterSuccess`); the browser then blocks every submit until the fields are typed again, and those edits restore the invariant for the password fields.
- Luhn.LuhnCheck: `luhnCheck` is defined beside the generator but nothing in the application calls it; it is modelled because the generator's guarantee is stated through it.
- Pages that are only UI: Home, Purchases, PurchaseModal and Login are outside this model. Their `getCookie` copies are the one modelled here.

## Findings

| source | as written | input that shows it | evidently intended | confidence | as-written member | corrected member |
|---|---|---|---|---|---|---|
| src/pages/Checker.jsx:218 | The panel's back button navigates to `/home`, but the route table (src/App.jsx:37-78) has no such path, so the catch-all redirects to `/`. | A signed-in user presses "Volver" on the card panel and lands on the login page. | `/index`, the home path the table declares (src/App.jsx:41-48) and the other pages' back buttons use (src/pages/Purchases.jsx:117). The comment at src/App.jsx:40 plans a rename to `/home` that the table never received. | medium; not executed | `Routes.PanelBackAsWrittenLandsOnLogin` | `Routes.PanelBackLandsHome` |
