# faktury — a Dafny model of the invoicing core

faktury is a small invoicing application for Czech sole traders. It has an
Express/Prisma server and a React client. This project models its core in
Dafny and proves properties of that model.

- **Server, invoice controller.** Models:
  - the conversion of a Czech account number `[prefix-]number/bankCode` to an IBAN, with the MOD 97-10 check digits of ISO 13616;
  - the Czech QR payment text (SPAYD, "Short Payment Descriptor") that each invoice carries;
  - the invoice total the server stores;
  - the year-scoped invoice numbers (`YYYYNNN`).
- **Server, user controller.** Models the user table: create (unique e-mails), update (a blank password keeps the old one), soft delete versus hard delete, the list of live users ordered by company name, and the lookup by id.
- **Server, PDF template.** Models the language and locale choice, the per-line amounts, and the totals block (base, VAT grouped by rate, amount to pay, reverse-charge note).
- **Client.** Models:
  - the invoice editor (the item list and its edits, the VAT summary);
  - the invoice list (search, per-invoice base and VAT, page statistics);
  - the customer pages and the customer form;
  - the user list and the user editor;
  - the avatar (initials and colour).

Module layout:
- **Library modules.** `Wrappers` holds `Option`. `Text` holds the JavaScript string built-ins the code relies on: `split`, `padStart`, `includes`, `trim`, case mapping, decimal printing and `parseInt`. `Seqs` holds the order-preserving `filter`.
- **Invoice controller.** `Iban`, `Spayd` and `InvoiceNumbering`.
- **Amounts.** `Vat` holds the line amounts, the sums and the grouping of VAT by rate shared by the editor and the PDF.
- **Other core files.** One module per file.

Money is modelled as exact `real`. Where the source keeps a loop, the model keeps it: the check-digit loop, the VAT grouping and the sum of its values, the hash loop, and the listing. Each loop is a `method` proved against a function that specifies it. The user table is a `class` whose methods change its map of rows and its row order.

## Model

| member | source | states |
|---|---|---|
| Iban.ParseLocal | server/src/controllers/invoiceController.ts:15-32 | an account number is read exactly when it holds one `/`; with exactly one `-` before it the pieces are prefix and number, otherwise the first `-`-piece is the number and the prefix is `0` |
| Iban.ParseLocalNoSlash | server/src/controllers/invoiceController.ts:15-22 | none of the pieces read from an account number contains `/` |
| Iban.CountryDigitsAreCZ | server/src/controllers/invoiceController.ts:40-42 | the constant digits `1235` are the MOD 97-10 letter codes of `C` (12) and `Z` (35) |
| Iban.ConvertToIban | server/src/controllers/invoiceController.ts:8-53 | the conversion returns what `ToIban` specifies for every input |
| Iban.ComputeCheckDigits | server/src/controllers/invoiceController.ts:44-50 | the digit-by-digit remainder loop yields the check digits `98 - (BBAN·"123500" mod 97)`, two-digit padded |
| Iban.CheckDigitsRange | server/src/controllers/invoiceController.ts:50 | for a digit-only BBAN the check digits are two digits with a value from 02 to 98, equal to 98 minus the remainder |
| Iban.ConvertedIbanIsValid | server/src/controllers/invoiceController.ts:39-52 | a converted digit-only account passes the ISO 13616 check: the four leading characters moved to the end leave remainder 1 by 97 |
| Iban.BuiltIbanPassesCheck | server/src/controllers/invoiceController.ts:52 | `CZ`, the check digits and the BBAN put together pass the ISO 13616 check |
| Iban.NoSlashUnchanged | server/src/controllers/invoiceController.ts:15-19 | input without `/` is returned unchanged |
| Iban.ToIbanIdempotent | server/src/controllers/invoiceController.ts:8-53 | converting a converted account again changes nothing |
| Iban.ConvertedHasNoSlash | server/src/controllers/invoiceController.ts:21-52 | a converted account number holds no `/` |
| Iban.ToIbanCases | server/src/controllers/invoiceController.ts:9-19 | input that already looks like an IBAN (`CZ`, 24 characters) or that does not hold exactly one `/` is returned as it is; otherwise the result is `CZ`, check digits and BBAN |
| Iban.ConvertedLength | server/src/controllers/invoiceController.ts:7-52 | pieces that fit their padding (4, 6, 10) give an IBAN of 24 characters |
| Spayd.Hundredths | server/src/controllers/invoiceController.ts:62 | `toFixed(2)` shows the amount rounded to the nearest hundredth (half away from zero) |
| Spayd.PaddedDigits | server/src/controllers/invoiceController.ts:62 | the hundredths are printed with at least three digits |
| Spayd.ToFixed2Reads | server/src/controllers/invoiceController.ts:62 | the formatted amount is a minus sign exactly for a negative amount, then integer digits, a point and two decimals, which read back as the rounded magnitude |
| Spayd.NegativeZero | server/src/controllers/invoiceController.ts:62 | a negative amount that rounds to zero is printed `-0.00` |
| Spayd.SanitizeCharset | server/src/controllers/invoiceController.ts:71 | the sanitised message holds only capitals, digits, space and `$%*+-./:`, in the order of the upper-cased message |
| Spayd.SanitizeIdempotent | server/src/controllers/invoiceController.ts:71 | sanitising a sanitised message changes nothing |
| Spayd.SanitizeKeepsSeparator | server/src/controllers/invoiceController.ts:71 | the sanitiser keeps `*`, the field separator of the format, exactly when the message has one |
| Spayd.GenerateSpaydString | server/src/controllers/invoiceController.ts:57-80 | the payment text is the header followed by the fields of `SpaydText` for the IBAN and the formatted amount |
| Spayd.AssembleSpayd | server/src/controllers/invoiceController.ts:64-79 | the string built step by step is `SPD*1.0` followed by `*KEY:value` for each field, in order |
| Spayd.LeadingFields | server/src/controllers/invoiceController.ts:66 | the fixed prefix of the text is the rendering of the ACC, AM and CC fields |
| Spayd.AppendField | server/src/controllers/invoiceController.ts:69-77 | appending `*KEY:` and a value adds exactly that field to the text |
| Spayd.FieldOrder | server/src/controllers/invoiceController.ts:64-79 | the keys are ACC, AM, CC, then MSG exactly when there is a message, then X-VS exactly when there is a variable symbol |
| Spayd.SplitSpayd | server/src/controllers/invoiceController.ts:65 | when no field contains `*`, splitting the text on `*` gives back `SPD`, `1.0` and the fields |
| Spayd.InvoicePaymentString | server/src/controllers/invoiceController.ts:158-162 | no payment text without a bank account; otherwise the text for the total, the currency (CZK when empty), the number as variable symbol and `Faktura <number>` |
| Spayd.InvoiceMessageFields | server/src/controllers/invoiceController.ts:162 | for a digit-only invoice number the last two fields are `MSG:FAKTURA <number>` and `X-VS:<number>` |
| Spayd.UpperInvoiceMessage | server/src/controllers/invoiceController.ts:162 | the message `Faktura <number>` upper-cases to `FAKTURA <number>` |
| Spayd.InvoiceMessageChars | server/src/controllers/invoiceController.ts:71 | every character of `FAKTURA <number>` survives the sanitiser |
| InvoiceNumbering.RangeStart | server/src/controllers/invoiceController.ts:312-313 | the year's range starts at `year·1000` |
| InvoiceNumbering.LastInRange | server/src/controllers/invoiceController.ts:315-324 | the last invoice of the range is the largest of the user's numbers in `[year·1000, (year+1)·1000)`; none exactly when no number lies in it |
| InvoiceNumbering.GetNextInvoiceNumber | server/src/controllers/invoiceController.ts:305-333 | the handler computes `NextNumber` of the user's numbers and the year |
| InvoiceNumbering.YearThenDigits | server/src/controllers/invoiceController.ts:332 | parsing the year followed by a digit string gives `year·10^len + value` |
| InvoiceNumbering.PaddedCount | server/src/controllers/invoiceController.ts:332 | a count below 1000 pads to exactly three digits of the same value |
| InvoiceNumbering.CountOfEmptyYear | server/src/controllers/invoiceController.ts:326 | with no invoice in the range the count is 1 |
| InvoiceNumbering.CountAfter | server/src/controllers/invoiceController.ts:327-330 | after a last number `m` the count is the digits of `m` from the fifth on, plus one (NaN when there are none) |
| InvoiceNumbering.NumberOfCount | server/src/controllers/invoiceController.ts:332 | a count printing as digits `t` gives `year·10^len(t) + value(t)` |
| InvoiceNumbering.FirstOfYear | server/src/controllers/invoiceController.ts:326-332 | the first invoice of a year is `year·1000 + 1` |
| InvoiceNumbering.SuffixOfFullYear | server/src/controllers/invoiceController.ts:328 | for a four-digit year the digits after the fourth are the number minus `year·1000` |
| InvoiceNumbering.NextIsLastPlusOne | server/src/controllers/invoiceController.ts:326-332 | for a four-digit year below the 999th invoice, the next number is the last plus one and stays in the year's range |
| InvoiceNumbering.CountOverflow | server/src/controllers/invoiceController.ts:326-332 | after the 999th invoice of a four-digit year the next number is `year·10000 + 1000`, outside the year's range |
| InvoiceNumbering.CountThousand | server/src/controllers/invoiceController.ts:332 | a count of 1000 is printed with four digits, unpadded |
| InvoiceNumbering.OneDigitYear | server/src/controllers/invoiceController.ts:328 | for a one-digit year every number of the range has at most four digits, so the count reads as NaN and the next number is the year itself |
| Vat.GrossIsLineTotal | client/src/pages/InvoiceEditor.tsx:316-318 | base times `1 + rate/100` is the line total, and the VAT is the total minus the base |
| Vat.TotalIsBasePlusVat | client/src/pages/InvoiceEditor.tsx:409-424 | the sum of line totals is the sum of bases plus the sum of VAT |
| Vat.SumOfConcat | client/src/pages/InvoiceEditor.tsx:409-411 | the left-fold sum over two lists is the sum of their sums |
| Vat.SumOfSplit | client/src/pages/InvoiceEditor.tsx:409-411 | the sum splits around any line |
| Vat.ServerTotalIsSum | server/src/controllers/invoiceController.ts:153-156 | the stored total, `Σ base·(1 + rate/100)`, equals the sum of line totals and the base plus VAT sums |
| Vat.VatByRateGroups | client/src/pages/InvoiceEditor.tsx:413-421 | the grouping has one entry per VAT rate used, holding the VAT of exactly the lines at that rate |
| Vat.VatRowsSum | client/src/pages/InvoiceEditor.tsx:423 | summing the grouped values, in any order that lists each rate once, gives the total VAT |
| Vat.GroupVatByRate | client/src/pages/InvoiceEditor.tsx:413-421 | the `forEach` loop builds the grouping: keys are the used rates, values the VAT per rate |
| Vat.SumValues | client/src/pages/InvoiceEditor.tsx:423 | the loop adds the grouped values in the given order |
| Vat.VatSummary | client/src/pages/InvoiceEditor.tsx:408-424 | base total, VAT per rate, total VAT and grand total equal the sums over the lines |
| InvoiceEditor.NewForm | client/src/pages/InvoiceEditor.tsx:32-42 | a new invoice has one default line (quantity 1, price 0, rate 21), CZK, Czech, no reverse charge |
| InvoiceEditor.OrElse | client/src/pages/InvoiceEditor.tsx:59-60 | a missing or empty stored value falls back to the default |
| InvoiceEditor.LoadForm | client/src/pages/InvoiceEditor.tsx:53-63 | a stored invoice loads with currency and language never empty, its own lines (the default line when none are stored), and the reverse-charge flag only when true |
| InvoiceEditor.SetField | client/src/pages/InvoiceEditor.tsx:81 | an edit changes exactly the named field of a line |
| InvoiceEditor.HandleItemChange | client/src/pages/InvoiceEditor.tsx:79-83 | editing line `index` keeps the list length, changes that line by the edit, leaves every other line and the rest of the form as they were |
| InvoiceEditor.ChangeIdempotent | client/src/pages/InvoiceEditor.tsx:79-83 | applying the same edit twice is applying it once |
| InvoiceEditor.AddItem | client/src/pages/InvoiceEditor.tsx:85-90 | adding appends one default line and keeps the others |
| InvoiceEditor.WithoutIndex | client/src/pages/InvoiceEditor.tsx:93 | the position filter never lengthens the list |
| InvoiceEditor.WithoutIndexSlices | client/src/pages/InvoiceEditor.tsx:92-95 | filtering out position `index` drops exactly that line when it exists and nothing otherwise |
| InvoiceEditor.RemoveItem | client/src/pages/InvoiceEditor.tsx:92-95 | removing drops exactly the line at `index`; an index out of range leaves the list unchanged |
| InvoiceEditor.RemoveKeepsALine | client/src/pages/InvoiceEditor.tsx:378 | with the remove button disabled on a single line, an invoice never loses its last line |
| InvoiceEditor.ChangeMovesTotal | client/src/pages/InvoiceEditor.tsx:409-424 | an edit moves the invoice total by the new line total minus the old one, and no more |
| InvoiceEditor.AddKeepsTotals | client/src/pages/InvoiceEditor.tsx:85-90 | adding the default line (price 0) leaves base, VAT and total unchanged |
| InvoiceEditor.RemoveMovesTotal | client/src/pages/InvoiceEditor.tsx:92-95 | removing a line lowers the total by that line's total |
| InvoicePdf.LangCode | server/src/templates/InvoicePDF.tsx:118 | the language is the invoice's, or Czech when missing or empty |
| InvoicePdf.Locale | server/src/templates/InvoicePDF.tsx:120 | the locale is cs-CZ exactly for Czech and en-GB for every other language |
| InvoicePdf.Translation | server/src/templates/InvoicePDF.tsx:119 | the texts are the language's own, or the Czech ones for a language without texts |
| InvoicePdf.DefaultsToCzech | server/src/templates/InvoicePDF.tsx:118-120 | an invoice without a language is printed in Czech with the Czech locale |
| InvoicePdf.RowOf | server/src/templates/InvoicePDF.tsx:184-186 | a row's VAT is base·rate/100 and its total base plus VAT, that is base·(1 + rate/100) |
| InvoicePdf.Rows | server/src/templates/InvoicePDF.tsx:183-186 | there is one row per line, in order |
| InvoicePdf.RowTotalsAreLineTotals | server/src/templates/InvoicePDF.tsx:184-186 | the row totals add up to the sum of line totals |
| InvoicePdf.Totals | server/src/templates/InvoicePDF.tsx:220-269 | the totals block shows the base sum, the VAT of each used rate, the stored total as amount to pay, and the reverse-charge note exactly for reverse-charge invoices |
| InvoicePdf.TotalsAgree | server/src/templates/InvoicePDF.tsx:220-262 | for a total stored by the server, base plus the VAT rows equals the amount to pay, and so do the row totals |
| InvoicesPage.FilterInvoices | client/src/pages/Invoices.tsx:85-88 | an invoice is listed exactly when its number contains the term or its customer's name contains it case-insensitively; the order is kept |
| InvoicesPage.EmptyTermKeepsAll | client/src/pages/Invoices.tsx:85-88 | an empty search lists every invoice |
| InvoicesPage.CalculateAmounts | client/src/pages/Invoices.tsx:91-97 | the base is the sum of line bases and base plus VAT is the stored total |
| InvoicesPage.AmountsOfServerTotal | client/src/pages/Invoices.tsx:95 | for a total stored by the server the VAT shown is the sum of line VAT |
| InvoicesPage.StatsOf | client/src/pages/Invoices.tsx:100-107 | the statistics count the invoices, and base plus VAT is the sum of their totals |
| InvoicesPage.PageStats | client/src/pages/Invoices.tsx:99-107 | the page statistics count the listed invoices, never more than all, and base plus VAT is the listed totals' sum |
| InvoicesPage.ShowOwnerColumn | client/src/pages/Invoices.tsx:109 | the owner column shows exactly when no user is selected |
| InvoicesPage.AvailableYears | client/src/pages/Invoices.tsx:58-62 | the year list is the fetched one, or the current year when the fetch fails or is empty; it is never empty |
| Avatar.DropRun | client/src/components/ui/Avatar.tsx:12 | a run of separators is consumed: the rest is shorter and does not start with a separator |
| Avatar.Pieces | client/src/components/ui/Avatar.tsx:12 | the regular-expression split always yields at least one part |
| Avatar.SplitRuns | client/src/components/ui/Avatar.tsx:12 | splitting on runs of whitespace, `@` and `.` yields at least one part |
| Avatar.PiecesNoSeparator | client/src/components/ui/Avatar.tsx:12 | no part contains a separator |
| Avatar.PiecesConcat | client/src/components/ui/Avatar.tsx:12 | the parts put together are the name without its separators |
| Avatar.InnerPiecesNonEmpty | client/src/components/ui/Avatar.tsx:12 | only the first and the last part can be empty; the first is non-empty when the name starts with a letter |
| Avatar.WordPieces | client/src/components/ui/Avatar.tsx:12 | a name without separators is one part |
| Avatar.WordThenRun | client/src/components/ui/Avatar.tsx:12 | a word followed by a separator run splits into the word and the parts of the rest |
| Avatar.WordFirst | client/src/components/ui/Avatar.tsx:12 | the first part is the leading word |
| Avatar.TwoParts | client/src/components/ui/Avatar.tsx:12 | a word, separators and more give at least two parts, the first being the word |
| Avatar.Initials | client/src/components/ui/Avatar.tsx:11-16 | one part gives its first two characters upper-cased; several give the first characters of the first two parts (`undefined` for an empty part); the call fails exactly when both are empty |
| Avatar.TrimUnchanged | client/src/components/ui/Avatar.tsx:12 | trimming a name with no blank at either end changes nothing |
| Avatar.OneWordInitials | client/src/components/ui/Avatar.tsx:14 | a one-word name gives its first two letters upper-cased |
| Avatar.TwoWordInitials | client/src/components/ui/Avatar.tsx:15 | a two-word name gives the upper-cased first letters of both words |
| Avatar.ToInt32 | client/src/components/ui/Avatar.tsx:21 | the 32-bit conversion lies in the signed range and agrees with its input modulo 2^32 |
| Avatar.ShiftLeft5 | client/src/components/ui/Avatar.tsx:21 | `hash << 5` lies in the signed 32-bit range |
| Avatar.Hash | client/src/components/ui/Avatar.tsx:18-22 | the hash loop computes `HashOf` of the string |
| Avatar.HashBound | client/src/components/ui/Avatar.tsx:21 | the hash of `n` characters is at most `n·(2^31 + 2^21)` in magnitude |
| Avatar.Hue | client/src/components/ui/Avatar.tsx:27 | the hue is `|hash| mod 360`, below 360 |
| Avatar.GetColor | client/src/components/ui/Avatar.tsx:18-31 | the colour is `hsl(h, 55%, 60%)` for the hue of the string's hash, with `h` below 360 |
| Avatar.EmptySeedHue | client/src/components/ui/Avatar.tsx:19-30 | the empty string gets hue 0, `hsl(0, 55%, 60%)` |
| Avatar.Seed | client/src/components/ui/Avatar.tsx:41 | the colour is seeded by the id when there is one, by the name otherwise |
| Avatar.ColourFollowsId | client/src/components/ui/Avatar.tsx:41 | with an id, renaming a user does not change the colour |
| CustomersPage.FilterCustomers | client/src/pages/Customers.tsx:76-79 | a customer is listed exactly when the name contains the term case-insensitively or the registration number contains it as typed; the order is kept |
| CustomersPage.EmptyTermKeepsAll | client/src/pages/Customers.tsx:76-79 | an empty search lists every customer |
| CustomersPage.HandleEdit | client/src/pages/Customers.tsx:59-68 | editing remembers the customer, copies its fields (a missing DIČ as empty) and opens the modal |
| CustomersPage.CloseModal | client/src/pages/Customers.tsx:70-74 | closing hides the modal, forgets the customer and empties the form |
| CustomersPage.HandleSubmit | client/src/pages/Customers.tsx:39-57 | an update of the edited customer's id or a create, with the form's fields; success closes and resets, failure keeps the state |
| CustomersPage.EditThenSave | client/src/pages/Customers.tsx:42-66 | editing and saving unchanged sends the customer's own fields to its own id |
| CustomersPage.CloseForgetsEdit | client/src/pages/Customers.tsx:70-74 | after a close the next submit creates a customer from an empty form |
| UserList.FilterUsers | client/src/pages/UserList.tsx:42-56 | a blank query lists every user; otherwise a user is listed exactly when the lower-cased query occurs in the lower-cased company name, e-mail or registration number; the order is kept |
| UserList.BlankQueryShowsAll | client/src/pages/UserList.tsx:43-44 | a query of blanks only lists every user |
| UserList.OnlyEmailWhenAnonymous | client/src/pages/UserList.tsx:48-53 | a user without company name and registration number is found only through the e-mail |
| UserList.DeleteClick | client/src/pages/UserList.tsx:72-76 | a delete click remembers the user, opens the modal and forgets an earlier answer |
| UserList.CloseDelete | client/src/pages/UserList.tsx:227-231 | closing the modal forgets the user and the answer |
| UserList.ConfirmDelete | client/src/pages/UserList.tsx:78-98 | without a user to delete, or when the request fails, nothing changes; otherwise the answer is kept and the modal stays open for the same user |
| UserList.CancelDelete | client/src/pages/UserList.tsx:260-263 | cancelling closes the modal and forgets the user but keeps an earlier answer |
| UserList.ConfirmThenClose | client/src/pages/UserList.tsx:78-98 | after a click and a confirmed delete the modal is shown for that user with the answer in place of the buttons (239-255); the delayed reset of 89-93 then hides it |
| UserList.CancelHides | client/src/pages/UserList.tsx:260-263 | cancelling hides the modal whatever its state |
| UserList.ModalLifecycle | client/src/pages/UserList.tsx:226-231 | the modal shows after a click for that user and never after a close; a close after a click is a close |
| CustomerForm.OrEmpty | client/src/components/CustomerForm.tsx:61 | a missing optional text loads as empty |
| CustomerForm.TermsInput | client/src/components/CustomerForm.tsx:65 | payment terms load as empty exactly when missing or 0 days |
| CustomerForm.LoadForm | client/src/components/CustomerForm.tsx:56-86 | a customer loads field by field (missing texts empty); no customer gives the defaults 1500 CZK |
| CustomerForm.OrNull | client/src/components/CustomerForm.tsx:106-108 | an empty text is sent as `null` |
| CustomerForm.DataToSend | client/src/components/CustomerForm.tsx:103-109 | the body copies the form, with empty payment terms and contacts as `null` |
| CustomerForm.Submit | client/src/components/CustomerForm.tsx:88-117 | nothing is sent exactly when name, registration number or address is empty; otherwise an update when the customer has an id, else a create, with the body of `DataToSend` |
| CustomerForm.DefaultFormRejected | client/src/components/CustomerForm.tsx:92-95 | the empty form cannot be submitted |
| CustomerForm.LoadThenSend | client/src/components/CustomerForm.tsx:103-109 | loading and saving unchanged sends the stored values back, blank contacts and 0-day terms as `null` |
| CustomerForm.ZeroTermsBecomeNull | client/src/components/CustomerForm.tsx:65 | stored payment terms of 0 days are resent as `null` |
| UserEditor.IsEditMode | client/src/pages/UserEditor.tsx:24 | edit mode exactly when the route has a non-empty id |
| UserEditor.IsEditingSelf | client/src/pages/UserEditor.tsx:25 | editing oneself exactly when the route id equals the signed-in user's id (two missing ids count as equal) |
| UserEditor.LoadUser | client/src/pages/UserEditor.tsx:48-62 | a fetched user loads with missing texts empty, the VAT flag only when true, and never a password |
| UserEditor.Submit | client/src/pages/UserEditor.tsx:72-102 | the e-mail is always required, the password only for a new user; then an update of the route id in edit mode, else a create |
| UserEditor.LoadedUserSavable | client/src/pages/UserEditor.tsx:75-90 | a loaded user with an e-mail is saved as an update without typing a password |
| UserEditor.CreateNeedsBoth | client/src/pages/UserEditor.tsx:75-83 | the empty create form fails for the e-mail, and with an e-mail but no password for the password |
| UserController.Public | server/src/controllers/userController.ts:11-23 | the selected columns never include the password |
| UserController.MergeProfile | server/src/controllers/userController.ts:134-143 | an update sets the given profile fields and keeps the absent ones |
| UserController.NewPasswordHash | server/src/controllers/userController.ts:145-148 | the password hash changes to the hash of the new password exactly when one is given that is not blank |
| UserController.BlankPasswordKeepsHash | server/src/controllers/userController.ts:146 | a password of blanks only keeps the stored hash |
| UserController.Without | server/src/controllers/userController.ts:210-212 | after a hard delete the table order holds every other id and not the deleted one |
| UserController.StrLeqTotal | server/src/controllers/userController.ts:24 | any two company names are ordered one way or the other |
| UserController.StrLeqTransitive | server/src/controllers/userController.ts:24 | the name order is transitive |
| UserController.KeyLeqTotal | server/src/controllers/userController.ts:24 | the order with missing names last is total |
| UserController.KeyLeqTransitive | server/src/controllers/userController.ts:24 | the order with missing names last is transitive |
| UserController.SortedAllPairs | server/src/controllers/userController.ts:24 | a list ordered between neighbours is ordered between any two users |
| UserController.Insert | server/src/controllers/userController.ts:24 | inserting a user into an ordered list keeps it ordered and adds exactly that user |
| UserController.ActiveRows | server/src/controllers/userController.ts:7-10 | the live rows are the public columns of exactly the rows without a deletion time stamp |
| UserController.UserTable.CreateUser | server/src/controllers/userController.ts:67-114 | a missing or empty e-mail or password is refused, and so is an e-mail any row already has (deleted or not); otherwise one row is added with the hashed password and the VAT flag false by default, and the table stays valid |
| UserController.UserTable.UpdateUser | server/src/controllers/userController.ts:116-173 | an unknown id is not found; a changed non-empty e-mail another row has is refused; a change to an e-mail no row has, or no change of e-mail, succeeds; the database's uniqueness error happens exactly for an empty e-mail another row already has; on success only that row changes: given fields replace stored ones, the password only when not blank; the e-mails stay unique |
| UserController.UserTable.DeleteUser | server/src/controllers/userController.ts:175-224 | an unknown id is not found; a user with invoices is only stamped as deleted; one without is removed from the table and its order |
| UserController.UserTable.GetUserById | server/src/controllers/userController.ts:34-65 | any row is found by its id, deleted or not, with its public columns and deletion stamp; an unknown id is not found |
| UserController.UserTable.GetAllUsers | server/src/controllers/userController.ts:5-32 | the list is a permutation of the live rows' public columns, ordered by company name with missing names last |
| UserController.UserTable.SoftDeletedHidden | server/src/controllers/userController.ts:7-10 | a soft-deleted user is still found by id but not listed |

## Left out

- **Numbers.**
  - JavaScript numbers are IEEE doubles; the model computes on exact `real` and unbounded `int`. Rounding errors of the sums, and the rounding of `toFixed(2)` on the nearest double rather than on the exact value, are not modelled.
  - Spayd.ToFixed2 models `toFixed(2)` on the exact value only; amounts of 10^21 and above, which print in exponent notation, are not distinguished.
- **Rendering and formatting.**
  - Currency and date formatting (`Intl`, `toLocaleDateString`), the QR-code raster, the PDF layout and the page markup are presentation and are not modelled.
  - The translation tables of the PDF are not part of this model; `InvoicePdf.Translation` takes the table as a parameter.
- **Server inputs and the database.**
  - The database queries are modelled by their results. The range query for the last invoice is `LastInRange` over the user's invoice numbers. The invoice count of a user to delete is a parameter.
  - Ids the database generates and the deletion time stamp are parameters. `createdAt` and `updatedAt` are not modelled.
  - Request years that are not numbers (`parseInt` giving NaN) are not modelled; years are natural numbers.
  - bcrypt is a function parameter of the user table; its salt, and so its randomness, is not modelled.
  - Concurrent requests are not modelled. In particular, two creates with the same e-mail racing past the existence check are not.
  - JSON `null` in a request body is not distinguished from an absent field: `UserController.UserTable.UpdateUser` treats both as "keep".
  - Authorisation checks, sessions and tokens around the handlers are not modelled.
- **Strings.**
  - Strings are sequences of Dafny characters, which are Unicode scalar values. A character outside the Basic Multilingual Plane is two UTF-16 code units in JavaScript but one character here. So `length`, `substring(0, 2)`, `padStart` and `charCodeAt` are modelled only for text without such characters.
  - Upper and lower case are mapped for ASCII letters only. `trim` and `\s` recognise the full ECMAScript set of white space and line terminators.
- **Client.**
  - The client's network calls, alerts and navigation are left out. The pages are modelled by the state changes and requests their handlers compute.
  - The order in which `Object.entries` and `Object.values` list the rates of the VAT grouping is a parameter (`order`). The model proves the sums for any order that lists each rate once.
  - The remaining invoice-controller handlers (listing, years, create/update/delete of invoices) are database plumbing around the modelled total, QR text and numbering. Only those computations are modelled.
- **Weaker statements.**
  - Avatar.Hash: computes on unbounded integers. It agrees with the double arithmetic of the source while the hash stays below 2^53 in magnitude, which `Avatar.HashBound` guarantees for names shorter than about 2^21 characters. Longer inputs are not modelled.
  - UserController.UserTable.GetAllUsers: orders company names by character code with missing names last. The database's collation, its null ordering and its order among equal names are not modelled; the model allows any order among equal names.
